/** The reader with its cursor and its node counter.  Every method is proved to
    advance the cursor exactly as the function of the same step consumes bytes,
    never past the end. */
module OpenStepParser {
  import opened Common
  import opened OpenStep
  import Utf8

  class Parser {
    const bytes: seq<byte>
    var cursor: nat
    var nodes: nat

    ghost predicate Valid()
      reads this
    {
      cursor <= |bytes|
    }

    /** What is still to be read. */
    ghost function Left(): seq<byte>
      reads this
      requires Valid()
    {
      bytes[cursor..]
    }

    constructor (bytes: seq<byte>)
      ensures Valid() && this.bytes == bytes && cursor == 0 && nodes == 0
    {
      this.bytes := bytes;
      cursor, nodes := 0, 0;
    }

    lemma LeftSteps(from: nat, k: nat)
      requires from + k <= |bytes|
      ensures bytes[from..][k..] == bytes[from + k..]
      ensures k > 0 ==> bytes[from..][0] == bytes[from]
    {
    }

    method Consume(expected: byte) returns (consumed: bool)
      requires Valid()
      modifies this`cursor
      ensures Valid() && consumed == At(old(Left()), expected)
      ensures Left() == if consumed then old(Left())[1..] else old(Left())
    {
      consumed := cursor < |bytes| && bytes[cursor] == expected;
      if consumed {
        LeftSteps(cursor, 1);
        cursor := cursor + 1;
      }
    }

    method SkipTrivia() returns (ok: bool)
      requires Valid()
      modifies this`cursor
      ensures Valid() && ok == OpenStep.SkipTrivia(old(Left())).Some?
      ensures ok ==> OpenStep.SkipTrivia(old(Left())) == Some(Left())
    {
      hide OpenStep.SkipLine, OpenStep.SkipBlock;
      while true
        invariant Valid()
        invariant OpenStep.SkipTrivia(Left()) == OpenStep.SkipTrivia(old(Left()))
        decreases |bytes| - cursor
      {
        SkipWhitespace();
        if cursor + 2 <= |bytes| && bytes[cursor] == SLASH && bytes[cursor + 1] == SLASH {
          LeftSteps(cursor, 2);
          cursor := cursor + 2;
          SkipLine();
        } else if cursor + 2 <= |bytes| && bytes[cursor] == SLASH && bytes[cursor + 1] == STAR {
          LeftSteps(cursor, 2);
          cursor := cursor + 2;
          ok := SkipBlock();
          if !ok {
            return;
          }
        } else {
          return true;
        }
      }
    }

    method SkipWhitespace()
      requires Valid()
      modifies this`cursor
      ensures Valid() && cursor >= old(cursor)
      ensures OpenStep.SkipTrivia(Left()) == OpenStep.SkipTrivia(old(Left()))
      ensures Left() != [] ==> !Whitespace(Left()[0])
    {
      while cursor < |bytes| && Whitespace(bytes[cursor])
        invariant Valid() && cursor >= old(cursor)
        invariant OpenStep.SkipTrivia(Left()) == OpenStep.SkipTrivia(old(Left()))
      {
        LeftSteps(cursor, 1);
        cursor := cursor + 1;
      }
    }

    method SkipLine()
      requires Valid()
      modifies this`cursor
      ensures Valid() && cursor >= old(cursor) && Left() == OpenStep.SkipLine(old(Left()))
    {
      while cursor < |bytes| && !Newline(bytes[cursor])
        invariant Valid() && cursor >= old(cursor)
        invariant OpenStep.SkipLine(Left()) == OpenStep.SkipLine(old(Left()))
      {
        LeftSteps(cursor, 1);
        cursor := cursor + 1;
      }
    }

    method SkipBlock() returns (closed: bool)
      requires Valid()
      modifies this`cursor
      ensures Valid() && cursor >= old(cursor) && closed == OpenStep.SkipBlock(old(Left())).Some?
      ensures closed ==> OpenStep.SkipBlock(old(Left())) == Some(Left())
    {
      while cursor < |bytes|
        invariant Valid() && cursor >= old(cursor)
        invariant OpenStep.SkipBlock(Left()) == OpenStep.SkipBlock(old(Left()))
      {
        if cursor + 2 <= |bytes| && bytes[cursor] == STAR && bytes[cursor + 1] == SLASH {
          LeftSteps(cursor, 2);
          cursor := cursor + 2;
          return true;
        }
        LeftSteps(cursor, 1);
        cursor := cursor + 1;
      }
      closed := false;
    }

    method Enter(depth: nat) returns (ok: bool)
      modifies this`nodes
      ensures ok == OpenStep.Enter(depth, old(nodes)).Some?
      ensures ok ==> OpenStep.Enter(depth, old(nodes)) == Some(nodes)
    {
      nodes := nodes + 1;
      ok := depth <= DEPTH_CAP && nodes <= NODE_CAP;
    }

    // ---- Strings -------------------------------------------------------

    method ParseEscape() returns (value: Option<seq<byte>>)
      requires Valid()
      modifies this`cursor
      ensures Valid() && cursor >= old(cursor)
      ensures value.Some? == ReadEscape(old(Left())).Some?
      ensures value.Some? ==> ReadEscape(old(Left())) == Some(Read(value.value, Left()))
    {
      if cursor >= |bytes| {
        return None;
      }
      var b := bytes[cursor];
      LeftSteps(cursor, 1);
      cursor := cursor + 1;
      if Named(b).Some? {
        return Some([Named(b).value]);
      }
      if b == UPPER_U {
        value := ParseHex();
      } else if OctalDigit(b) {
        value := ParseOctal(b - 0x30);
      } else {
        value := None;
      }
    }

    /** The four digits after the U. */
    method ParseHex() returns (value: Option<seq<byte>>)
      requires Valid()
      modifies this`cursor
      ensures Valid() && cursor >= old(cursor)
      ensures value.Some? == ReadHex(old(Left())).Some?
      ensures value.Some? ==> ReadHex(old(Left())) == Some(Read(value.value, Left()))
    {
      var end := cursor + 4;
      if end > |bytes| {
        return None;
      }
      var digits := bytes[cursor..end];
      assert digits == Left()[..4];
      if !HexDigit(digits[0]) || !HexDigit(digits[1]) || !HexDigit(digits[2]) || !HexDigit(digits[3]) {
        return None;
      }
      LeftSteps(cursor, 4);
      cursor := end;
      value := EncodeScalar(HexValue(digits[0]) * 0x1000 + HexValue(digits[1]) * 0x100
                            + HexValue(digits[2]) * 0x10 + HexValue(digits[3]));
    }

    /** At most two digits after the first one. */
    method ParseOctal(first: nat) returns (value: Option<seq<byte>>)
      requires Valid()
      modifies this`cursor
      ensures Valid() && cursor >= old(cursor)
      ensures value.Some? == ReadOctal(old(Left()), first).Some?
      ensures value.Some? ==> ReadOctal(old(Left()), first) == Some(Read(value.value, Left()))
    {
      var scalar: nat := first;
      var more: nat := 2;
      while more > 0 && cursor < |bytes| && OctalDigit(bytes[cursor])
        invariant 0 <= more <= 2 && Valid() && cursor >= old(cursor)
        invariant OctalDigits(Left(), more, scalar) == OctalDigits(old(Left()), 2, first)
      {
        LeftSteps(cursor, 1);
        scalar := scalar * 8 + (bytes[cursor] - 0x30);
        cursor := cursor + 1;
        more := more - 1;
      }
      value := EncodeScalar(scalar);
    }

    method ParseQuoted(capture: bool) returns (value: Option<seq<byte>>)
      requires Valid()
      modifies this`cursor
      ensures Valid() && cursor >= old(cursor)
      ensures value.Some? == ReadQuoted(old(Left()), [], [], capture).Some?
      ensures value.Some? ==> ReadQuoted(old(Left()), [], [], capture) == Some(Read(value.value, Left()))
    {
      hide Utf8.Valid, ReadEscape;
      var segment, captured: seq<byte> := cursor, [];
      assert bytes[segment..cursor] == [];
      while cursor < |bytes|
        invariant Valid() && old(cursor) <= segment <= cursor
        invariant ReadQuoted(Left(), bytes[segment..cursor], captured, capture)
               == ReadQuoted(old(Left()), [], [], capture)
        decreases |bytes| - cursor
      {
        var b := bytes[cursor];
        LeftSteps(cursor, 1);
        if b == QUOTE {
          if capture && !Utf8.Valid(bytes[segment..cursor]) {
            return None;
          }
          captured := captured + bytes[segment..cursor];
          cursor := cursor + 1;
          if !capture {
            return Some([]);
          }
          return if captured == [] then None else Some(captured);
        }
        if b == BACKSLASH {
          if capture && !Utf8.Valid(bytes[segment..cursor]) {
            return None;
          }
          captured := captured + bytes[segment..cursor];
          cursor := cursor + 1;
          var escaped := ParseEscape();
          if escaped.None? {
            return None;
          }
          captured := captured + escaped.value;
          segment := cursor;
          assert bytes[segment..cursor] == [];
        } else if b < 0x20 {
          return None;
        } else {
          assert bytes[segment..cursor] + [b] == bytes[segment..cursor + 1];
          cursor := cursor + 1;
        }
      }
      value := None;
    }

    method ParseString(capture: bool) returns (value: Option<seq<byte>>)
      requires Valid()
      modifies this`cursor
      ensures Valid() && value.Some? == ReadString(old(Left()), capture).Some?
      ensures value.Some? ==> ReadString(old(Left()), capture) == Some(Read(value.value, Left()))
    {
      hide Utf8.Valid, ReadQuoted, OpenStep.SkipTrivia;
      var ok := SkipTrivia();
      if !ok {
        return None;
      }
      var quoted := Consume(QUOTE);
      if quoted {
        value := ParseQuoted(capture);
        return;
      }
      value := ParseBare(capture);
    }

    method ParseBare(capture: bool) returns (value: Option<seq<byte>>)
      requires Valid()
      modifies this`cursor
      ensures Valid() && value.Some? == ReadBare(old(Left()), capture).Some?
      ensures value.Some? ==> ReadBare(old(Left()), capture) == Some(Read(value.value, Left()))
    {
      hide Utf8.Valid;
      ghost var t := Left();
      var start := cursor;
      while cursor < |bytes| && BareByte(bytes[cursor])
        invariant Valid() && start <= cursor
        invariant BareLength(t) == cursor - start + BareLength(Left())
      {
        LeftSteps(cursor, 1);
        cursor := cursor + 1;
      }
      assert t[..cursor - start] == bytes[start..cursor];
      LeftSteps(start, cursor - start);
      if start == cursor || !Utf8.Valid(bytes[start..cursor]) {
        return None;
      }
      value := Some(if capture then bytes[start..cursor] else []);
    }

    method ParseData() returns (ok: bool)
      requires Valid()
      modifies this`cursor
      ensures Valid() && ok == ReadData(old(Left()), true).Some?
      ensures ok ==> ReadData(old(Left()), true) == Some(Left())
    {
      var digits := 0;
      while cursor < |bytes|
        invariant Valid() && digits >= 0
        invariant ReadData(Left(), digits % 2 == 0) == ReadData(old(Left()), true)
        decreases |bytes| - cursor
      {
        var b := bytes[cursor];
        LeftSteps(cursor, 1);
        if b == GREATER_THAN && digits % 2 == 0 {
          cursor := cursor + 1;
          return true;
        }
        if HexDigit(b) {
          digits := digits + 1;
        } else if !Whitespace(b) {
          return false;
        }
        cursor := cursor + 1;
      }
      ok := false;
    }

    // ---- Values --------------------------------------------------------

    method ParseDictionary(depth: nat) returns (keys: Option<set<Key>>)
      requires Valid()
      modifies this
      ensures Valid() && keys.Some? == ReadDictionary(old(Left()), depth, old(nodes)).Some?
      ensures keys.Some? ==> ReadDictionary(old(Left()), depth, old(nodes)) == Some(Found(keys.value, Left(), nodes))
      decreases |bytes| - cursor, 1
    {
      hide OpenStep.SkipTrivia, ReadString, ReadBinding;
      var ok := Enter(depth);
      if !ok {
        return None;
      }
      ok := Consume(OPEN_BRACE);
      if !ok {
        return None;
      }
      var found: set<Key> := {};
      while true
        invariant Valid() && cursor > old(cursor)
        invariant ReadEntries(Left(), depth, nodes, found) == ReadDictionary(old(Left()), depth, old(nodes))
        decreases |bytes| - cursor
      {
        ok := SkipTrivia();
        if !ok {
          return None;
        }
        ok := Consume(CLOSE_BRACE);
        if ok {
          return Some(found);
        }
        var key := ParseString(true);
        if key.None? || key.value in found {
          return None;
        }
        ok := ParseBinding(depth);
        if !ok {
          return None;
        }
        found := found + {key.value};
      }
    }

    /** From after a key to after its semicolon. */
    method ParseBinding(depth: nat) returns (ok: bool)
      requires Valid()
      modifies this
      ensures Valid() && ok == ReadBinding(old(Left()), depth, old(nodes)).Some?
      ensures ok ==> ReadBinding(old(Left()), depth, old(nodes)) == Some(Passed(Left(), nodes))
      decreases |bytes| - cursor, 0
    {
      hide OpenStep.SkipTrivia, ReadValue;
      ok := SkipTrivia();
      if !ok {
        return;
      }
      ok := Consume(EQUALS);
      if !ok {
        return;
      }
      ok := ParseValue(depth + 1);
      if !ok {
        return;
      }
      ok := SkipTrivia();
      if ok {
        ok := Consume(SEMICOLON);
      }
    }

    method ParseValue(depth: nat) returns (ok: bool)
      requires Valid()
      modifies this
      ensures Valid() && ok == ReadValue(old(Left()), depth, old(nodes)).Some?
      ensures ok ==> ReadValue(old(Left()), depth, old(nodes)) == Some(Passed(Left(), nodes))
      decreases |bytes| - cursor, 2
    {
      hide OpenStep.SkipTrivia, ReadString, ReadDictionary, ReadArray, ReadData;
      ok := Enter(depth);
      if !ok {
        return;
      }
      ok := SkipTrivia();
      if !ok || cursor == |bytes| {
        return false;
      }
      var b := bytes[cursor];
      if b == OPEN_BRACE {
        var keys := ParseDictionary(depth);
        ok := keys.Some?;
      } else if b == OPEN_PAREN {
        ok := Consume(OPEN_PAREN);
        ok := ParseArray(depth);
      } else if b == LESS_THAN {
        ok := Consume(LESS_THAN);
        ok := ParseData();
      } else {
        var value := ParseString(false);
        ok := value.Some?;
      }
    }

    /** Past the opening parenthesis. */
    method ParseArray(depth: nat) returns (ok: bool)
      requires Valid()
      modifies this
      ensures Valid() && ok == ReadArray(old(Left()), depth, old(nodes)).Some?
      ensures ok ==> ReadArray(old(Left()), depth, old(nodes)) == Some(Passed(Left(), nodes))
      decreases |bytes| - cursor, 4
    {
      hide OpenStep.SkipTrivia, ReadValue;
      while true
        invariant Valid() && cursor >= old(cursor)
        invariant ReadArray(Left(), depth, nodes) == ReadArray(old(Left()), depth, old(nodes))
        decreases |bytes| - cursor
      {
        ok := SkipTrivia();
        if !ok {
          return;
        }
        ok := Consume(CLOSE_PAREN);
        if ok {
          return;
        }
        ok := ParseValue(depth + 1);
        if !ok {
          return;
        }
        ok := SkipTrivia();
        if !ok {
          return;
        }
        ok := Consume(CLOSE_PAREN);
        if ok {
          return;
        }
        ok := Consume(COMMA);
        if !ok {
          return;
        }
      }
    }

    method ParseRootDictionary() returns (keys: Option<set<Key>>)
      requires Valid() && cursor == 0 && nodes == 0
      modifies this
      ensures Valid() && keys == ReadRoot(bytes)
    {
      hide OpenStep.SkipTrivia, ReadDictionary;
      assert bytes[0..] == bytes;
      var ok := SkipTrivia();
      if !ok {
        return None;
      }
      keys := ParseDictionary(0);
      if keys.None? {
        return;
      }
      ok := SkipTrivia();
      if !ok || cursor != |bytes| {
        return None;
      }
    }
  }
}
