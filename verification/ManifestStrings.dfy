/** What the two string decoders of a manifest's pool mean: text is a list of
    Unicode scalars, and both encodings of the same text decode to the same string. */
module ManifestStrings {
  import opened Common
  import opened Manifest
  import Utf8

  predicate Scalar(n: nat) {
    n < 0x11_0000 && !(0xD800 <= n < 0xE000)
  }

  predicate Scalars(x: seq<nat>) {
    forall i :: 0 <= i < |x| ==> Scalar(x[i])
  }

  function Utf8Of(x: seq<nat>): Str
    requires Scalars(x)
  {
    if x == [] then [] else EncodeScalar(x[0]) + Utf8Of(x[1..])
  }

  function Unit(u: u16): (s: seq<byte>)
    ensures |s| == 2
  {
    [u % 0x100, u / 0x100]
  }

  function Units(n: nat): (s: seq<byte>)
    requires Scalar(n)
    ensures |s| == if n < 0x1_0000 then 2 else 4
  {
    if n < 0x1_0000 then Unit(n)
    else Unit(0xD800 + (n - 0x1_0000) / 0x400) + Unit(0xDC00 + (n - 0x1_0000) % 0x400)
  }

  function UnitsIn(x: seq<nat>): nat {
    if x == [] then 0 else (if x[0] < 0x1_0000 then 1 else 2) + UnitsIn(x[1..])
  }

  /** Little-endian UTF-16 (RFC 2781, section 2.1). */
  function Utf16Of(x: seq<nat>): (s: seq<byte>)
    requires Scalars(x)
    ensures |s| == 2 * UnitsIn(x)
  {
    if x == [] then [] else Units(x[0]) + Utf16Of(x[1..])
  }

  lemma TextGrows(n: nat, rest: seq<nat>)
    requires Scalar(n) && Scalars(rest)
    ensures Scalars([n] + rest)
    ensures 2 * UnitsIn([n] + rest) == |Units(n)| + 2 * UnitsIn(rest)
    ensures Utf16Of([n] + rest) == Units(n) + Utf16Of(rest)
    ensures Utf8Of([n] + rest) == EncodeScalar(n) + Utf8Of(rest)
  {
    hide EncodeScalar;
    assert ([n] + rest)[1..] == rest;
  }

  lemma Slices(s: seq<byte>, a: nat, b: nat, c: nat)
    requires a <= b <= c <= |s|
    ensures s[a..c] == s[a..b] + s[b..c]
  {
  }

  // ---- UTF-16 ----------------------------------------------------------

  lemma UnitReads(s: seq<byte>, at: nat, u: u16)
    requires at + 2 <= |s| && s[at..at + 2] == Unit(u)
    ensures Le16(s, at) == Some(u)
  {
    assert s[at..at + 2][0] == s[at] && s[at..at + 2][1] == s[at + 1];
  }

  lemma UnitIs(s: seq<byte>, at: nat)
    requires at + 2 <= |s|
    ensures s[at..at + 2] == Unit(Le16(s, at).value)
  {
  }

  lemma PairUnits(u: u16, v: u16)
    requires 0xD800 <= u < 0xDC00 <= v < 0xE000
    ensures var n := 0x1_0000 + (u - 0xD800) * 0x400 + (v - 0xDC00); Scalar(n) && Units(n) == Unit(u) + Unit(v)
  {
    hide Unit;
    var n := 0x1_0000 + (u - 0xD800) * 0x400 + (v - 0xDC00);
    assert (n - 0x1_0000) / 0x400 == u - 0xD800 && (n - 0x1_0000) % 0x400 == v - 0xDC00;
  }

  lemma UnitsRead(n: nat, s: seq<byte>, at: nat)
    requires Scalar(n) && at + |Units(n)| <= |s| && s[at..at + |Units(n)|] == Units(n)
    ensures if n < 0x1_0000 then Le16(s, at) == Some(n)
            else Le16(s, at) == Some(0xD800 + (n - 0x1_0000) / 0x400)
                 && Le16(s, at + 2) == Some(0xDC00 + (n - 0x1_0000) % 0x400)
  {
    hide Unit;
    if n < 0x1_0000 {
      UnitReads(s, at, n);
    } else {
      assert s[at..at + 2] == Units(n)[..2] && s[at + 2..at + 4] == Units(n)[2..];
      UnitReads(s, at, 0xD800 + (n - 0x1_0000) / 0x400);
      UnitReads(s, at + 2, 0xDC00 + (n - 0x1_0000) % 0x400);
    }
  }

  /** A scalar at the front is transcoded first. */
  lemma FrontScalarReads(s: seq<byte>, at: nat, units: nat, n: nat)
    requires Scalar(n) && |Units(n)| <= 2 * units && at + 2 * units <= |s|
    requires s[at..at + |Units(n)|] == Units(n)
    ensures Utf16ToUtf8(s, at, units) ==
            match Utf16ToUtf8(s, at + |Units(n)|, units - |Units(n)| / 2)
            case None => None
            case Some(more) => Some(EncodeScalar(n) + more)
  {
    hide Units, EncodeScalar;
    UnitsRead(n, s, at);
  }

  /** Accepted code units start with a scalar. */
  lemma FrontScalar(s: seq<byte>, at: nat, units: nat) returns (n: nat)
    requires at + 2 * units <= |s| && units > 0 && Utf16ToUtf8(s, at, units).Some?
    ensures Scalar(n) && |Units(n)| <= 2 * units && s[at..at + |Units(n)|] == Units(n)
  {
    hide Unit, EncodeScalar;
    var u: nat := Le16(s, at).value;
    UnitIs(s, at);
    if 0xD800 <= u < 0xDC00 {
      var v: nat := Le16(s, at + 2).value;
      UnitIs(s, at + 2);
      PairUnits(u, v);
      n := 0x1_0000 + (u - 0xD800) * 0x400 + (v - 0xDC00);
      assert s[at..at + 4] == s[at..at + 2] + s[at + 2..at + 4];
    } else {
      n := u;
    }
  }

  /** UTF-16 text at some place, and what it is transcoded to. */
  predicate TextAt(s: seq<byte>, at: nat, units: nat, x: seq<nat>) {
    && Scalars(x) && UnitsIn(x) == units && at + 2 * units <= |s|
    && Utf16Of(x) == s[at..at + 2 * units]
    && Utf16ToUtf8(s, at, units) == Some(Utf8Of(x))
  }

  lemma TextAtGrows(s: seq<byte>, at: nat, units: nat, n: nat, rest: seq<nat>)
    requires Scalar(n) && |Units(n)| <= 2 * units && at + 2 * units <= |s|
    requires s[at..at + |Units(n)|] == Units(n)
    requires TextAt(s, at + |Units(n)|, units - |Units(n)| / 2, rest)
    ensures TextAt(s, at, units, [n] + rest)
  {
    hide Utf16ToUtf8, Units, EncodeScalar, Utf16Of, Utf8Of, UnitsIn;
    FrontScalarReads(s, at, units, n);
    TextGrows(n, rest);
    Slices(s, at, at + |Units(n)|, at + 2 * units);
  }

  /** UTF-16 text is transcoded to the same text in UTF-8. */
  lemma {:induction false} Utf16Reads(x: seq<nat>, s: seq<byte>, at: nat)
    requires Scalars(x)
    requires at + 2 * UnitsIn(x) <= |s| && s[at..at + 2 * UnitsIn(x)] == Utf16Of(x)
    ensures TextAt(s, at, UnitsIn(x), x)
    decreases |x|
  {
    hide Units, EncodeScalar;
    if x != [] {
      hide TextAt;
      var n, rest := x[0], x[1..];
      var k, end := |Units(n)|, at + 2 * UnitsIn(x);
      Slices(s, at, at + k, end);
      assert Utf16Of(x)[..k] == Units(n) && Utf16Of(x)[k..] == Utf16Of(rest);
      assert s[at..end][..k] == s[at..at + k] && s[at..end][k..] == s[at + k..end];
      Utf16Reads(rest, s, at + k);
      TextAtGrows(s, at, UnitsIn(x), n, rest);
      assert [n] + rest == x;
    }
  }

  /** And nothing else is: what is transcoded was UTF-16 text. */
  lemma {:induction false} Utf16IsText(s: seq<byte>, at: nat, units: nat) returns (x: seq<nat>)
    requires at + 2 * units <= |s| && Utf16ToUtf8(s, at, units).Some?
    ensures TextAt(s, at, units, x)
    decreases units
  {
    hide Utf16ToUtf8, Units, EncodeScalar, TextAt;
    if units == 0 {
      x := [];
      NothingIsText(s, at);
    } else {
      var n := FrontScalar(s, at, units);
      FrontScalarReads(s, at, units, n);
      var rest := Utf16IsText(s, at + |Units(n)|, units - |Units(n)| / 2);
      TextAtGrows(s, at, units, n, rest);
      x := [n] + rest;
    }
  }

  lemma NothingIsText(s: seq<byte>, at: nat)
    requires at <= |s|
    ensures TextAt(s, at, 0, [])
  {
  }

  // ---- UTF-8 -----------------------------------------------------------

  lemma ScalarEncodes(n: nat, rest: Str)
    requires Scalar(n)
    ensures Utf8.ScalarLength(EncodeScalar(n) + rest) == |EncodeScalar(n)|
    ensures |EncodeScalar(n)| == 4 <==> n >= 0x1_0000
  {
    hide Utf8.ScalarLength;
    var s := EncodeScalar(n) + rest;
    if n < 0x80 {
      LengthByLead(s, 1);
    } else if n < 0x800 {
      assert s[0] == 0xC0 + n / 0x40 && s[1] == 0x80 + n % 0x40;
      LengthByLead(s, 2);
    } else if n < 0x1_0000 {
      assert s[0] == 0xE0 + n / 0x1000 && s[1] == 0x80 + n / 0x40 % 0x40 && s[2] == 0x80 + n % 0x40;
      ThreeByteLead(n);
      LengthByLead(s, 3);
    } else {
      assert s[0] == 0xF0 + n / 0x4_0000 && s[1] == 0x80 + n / 0x1000 % 0x40;
      assert s[2] == 0x80 + n / 0x40 % 0x40 && s[3] == 0x80 + n % 0x40;
      FourByteLead(n);
      LengthByLead(s, 4);
    }
  }

  /** The lead byte and the one after it leave no overlong and no surrogate form. */
  lemma ThreeByteLead(n: nat)
    requires 0x800 <= n < 0x1_0000 && Scalar(n)
    ensures n / 0x1000 < 0x10
    ensures n / 0x1000 == 0 ==> n / 0x40 % 0x40 >= 0x20
    ensures n / 0x1000 == 0xD ==> n / 0x40 % 0x40 < 0x20
  {
  }

  lemma FourByteLead(n: nat)
    requires 0x1_0000 <= n < 0x11_0000
    ensures n / 0x4_0000 <= 4
    ensures n / 0x4_0000 == 0 ==> n / 0x1000 % 0x40 >= 0x10
    ensures n / 0x4_0000 == 4 ==> n / 0x1000 % 0x40 < 0x10
  {
  }

  lemma LengthByLead(s: seq<byte>, k: nat)
    requires 1 <= k <= 4 && |s| >= k
    requires forall i :: 1 <= i < k ==> 0x80 <= s[i] < 0xC0
    requires k == 1 ==> s[0] < 0x80
    requires k == 2 ==> 0xC2 <= s[0] < 0xE0
    requires k == 3 ==> 0xE0 <= s[0] < 0xF0 && (s[0] == 0xE0 ==> s[1] >= 0xA0) && (s[0] == 0xED ==> s[1] < 0xA0)
    requires k == 4 ==> 0xF0 <= s[0] <= 0xF4 && (s[0] == 0xF0 ==> s[1] >= 0x90) && (s[0] == 0xF4 ==> s[1] < 0x90)
    ensures Utf8.ScalarLength(s) == k
  {
  }

  /** Text in UTF-8 is well formed, and counts its UTF-16 units. */
  lemma {:induction false} Utf8Reads(x: seq<nat>)
    requires Scalars(x)
    ensures Utf8.Valid(Utf8Of(x)) && UnitCount(Utf8Of(x)) == UnitsIn(x)
    decreases |x|
  {
    hide EncodeScalar, Utf8.ScalarLength;
    if x != [] {
      var rest := Utf8Of(x[1..]);
      Utf8Reads(x[1..]);
      ScalarEncodes(x[0], rest);
      var k := |EncodeScalar(x[0])|;
      assert Utf8Of(x)[k..] == rest;
      ScalarSize(x[0]);
    } else {
      NoScalar();
    }
  }

  lemma NoScalar()
    ensures Utf8.ScalarLength([]) == 0
  {
  }

  lemma ScalarSize(n: nat)
    requires Scalar(n)
    ensures 1 <= |EncodeScalar(n)| <= 4
  {
  }

  lemma ScalarDecodes(t: Str) returns (n: nat)
    requires 0 < Utf8.ScalarLength(t) <= |t|
    ensures Scalar(n) && EncodeScalar(n) == t[..Utf8.ScalarLength(t)]
  {
    hide EncodeScalar;
    var k := Utf8.ScalarLength(t);
    var a: nat := t[0];
    if k == 1 {
      n := a;
      OneByte(n);
      assert t[..1] == [t[0]];
      return;
    }
    var b: nat := t[1] - 0x80;
    if k == 2 {
      n := (a - 0xC0) * 0x40 + b;
      TwoBytes(a - 0xC0, b);
      assert t[..2] == [t[0], t[1]];
      return;
    }
    var c: nat := t[2] - 0x80;
    if k == 3 {
      n := ((a - 0xE0) * 0x40 + b) * 0x40 + c;
      ThreeBytes(a - 0xE0, b, c);
      assert t[..3] == [t[0], t[1], t[2]];
      return;
    }
    var d: nat := t[3] - 0x80;
    n := (((a - 0xF0) * 0x40 + b) * 0x40 + c) * 0x40 + d;
    FourBytes(a - 0xF0, b, c, d);
    assert t[..4] == [t[0], t[1], t[2], t[3]];
  }

  lemma OneByte(n: nat)
    requires n < 0x80
    ensures EncodeScalar(n) == [n]
  {
  }

  lemma TwoBytes(a: nat, b: nat)
    requires 2 <= a < 0x20 && b < 0x40
    ensures EncodeScalar(a * 0x40 + b) == [0xC0 + a, 0x80 + b]
  {
  }

  lemma ThreeBytes(a: nat, b: nat, c: nat)
    requires a < 0x10 && b < 0x40 && c < 0x40 && a * 0x40 + b >= 0x20
    ensures EncodeScalar((a * 0x40 + b) * 0x40 + c) == [0xE0 + a, 0x80 + b, 0x80 + c]
  {
    var n := (a * 0x40 + b) * 0x40 + c;
    assert n / 0x1000 == a && n / 0x40 == a * 0x40 + b;
  }

  lemma FourBytes(a: nat, b: nat, c: nat, d: nat)
    requires a < 5 && b < 0x40 && c < 0x40 && d < 0x40 && 0x10 <= a * 0x40 + b < 0x110
    ensures EncodeScalar(((a * 0x40 + b) * 0x40 + c) * 0x40 + d) == [0xF0 + a, 0x80 + b, 0x80 + c, 0x80 + d]
  {
    var n := ((a * 0x40 + b) * 0x40 + c) * 0x40 + d;
    assert n / 0x4_0000 == a && n / 0x1000 == a * 0x40 + b && n / 0x40 == (a * 0x40 + b) * 0x40 + c;
  }

  /** And nothing else is well formed. */
  lemma {:induction false} Utf8IsText(t: Str) returns (x: seq<nat>)
    requires Utf8.Valid(t)
    ensures Scalars(x) && Utf8Of(x) == t
    decreases |t|
  {
    hide EncodeScalar, Utf8.ScalarLength;
    if t == [] {
      x := [];
    } else {
      var k := Utf8.ScalarLength(t);
      var n := ScalarDecodes(t);
      var rest := Utf8IsText(t[k..]);
      x := [n] + rest;
      assert x[1..] == rest;
      assert t == t[..k] + t[k..];
    }
  }

  // ---- Pool entries ----------------------------------------------------

  function Prefix8(n: nat): seq<byte>
    requires n < 0x8000
  {
    if n < 0x80 then [n] else [0x80 + n / 0x100, n % 0x100]
  }

  function Prefix16(n: nat): seq<byte>
    requires n < 0x8000_0000
  {
    if n < 0x8000 then Unit(n) else Unit(0x8000 + n / 0x1_0000) + Unit(n % 0x1_0000)
  }

  /** A string as an asset packager writes it into a UTF-8 pool. */
  function Utf8Entry(x: seq<nat>): seq<byte>
    requires Scalars(x) && UnitsIn(x) < 0x8000 && |Utf8Of(x)| < 0x8000
  {
    Prefix8(UnitsIn(x)) + (Prefix8(|Utf8Of(x)|) + (Utf8Of(x) + [0]))
  }

  /** And into a UTF-16 pool. */
  function Utf16Entry(x: seq<nat>): seq<byte>
    requires Scalars(x) && UnitsIn(x) < 0x8000_0000
  {
    Prefix16(UnitsIn(x)) + (Utf16Of(x) + [0, 0])
  }

  lemma Prefix8Reads(s: seq<byte>, at: nat, n: nat)
    requires n < 0x8000 && at + |Prefix8(n)| <= |s| && s[at..at + |Prefix8(n)|] == Prefix8(n)
    ensures Length8(s, at) == Some(Length(n, at + |Prefix8(n)|))
  {
    assert s[at] == s[at..at + |Prefix8(n)|][0];
    if n >= 0x80 {
      assert s[at + 1] == s[at..at + 2][1];
    }
  }

  lemma Prefix16Reads(s: seq<byte>, at: nat, n: nat)
    requires n < 0x8000_0000 && at + |Prefix16(n)| <= |s| && s[at..at + |Prefix16(n)|] == Prefix16(n)
    ensures Length16(s, at) == Some(Length(n, at + |Prefix16(n)|))
  {
    hide Unit;
    if n < 0x8000 {
      UnitReads(s, at, n);
    } else {
      assert s[at..at + 2] == Prefix16(n)[..2] && s[at + 2..at + 4] == Prefix16(n)[2..];
      UnitReads(s, at, 0x8000 + n / 0x1_0000);
      UnitReads(s, at + 2, n % 0x1_0000);
    }
  }

  lemma Utf8EntryReads(x: seq<nat>, before: seq<byte>, after: seq<byte>, remaining: nat)
    requires Scalars(x) && UnitsIn(x) < 0x8000 && |Utf8Of(x)| < 0x8000
    ensures DecodeUtf8(before + Utf8Entry(x) + after, |before|, remaining) == Claim(Utf8Of(x), remaining)
  {
    hide Prefix8, Length8, Utf8Of, UnitsIn, Utf8.Valid, UnitCount, Utf8Entry, Claim;
    var s, text := before + Utf8Entry(x) + after, Utf8Of(x);
    var a := |before|;
    var b := a + |Prefix8(UnitsIn(x))|;
    var c := b + |Prefix8(|text|)|;
    Utf8EntryLayout(x, before, after);
    Prefix8Reads(s, a, UnitsIn(x));
    Prefix8Reads(s, b, |text|);
    Utf8Reads(x);
    assert s[c..c + |text|] == text && c + |text| < |s|;
  }

  lemma Utf8EntryLayout(x: seq<nat>, before: seq<byte>, after: seq<byte>)
    requires Scalars(x) && UnitsIn(x) < 0x8000 && |Utf8Of(x)| < 0x8000
    ensures var s, text := before + Utf8Entry(x) + after, Utf8Of(x);
            var b := |before| + |Prefix8(UnitsIn(x))|;
            var c := b + |Prefix8(|text|)|;
            && c + |text| < |s| && s[|before|..b] == Prefix8(UnitsIn(x)) && s[b..c] == Prefix8(|text|)
            && s[c..c + |text|] == text && s[c + |text|] == 0
  {
    hide Prefix8, Utf8Of, UnitsIn;
  }

  lemma Utf16EntryReads(x: seq<nat>, before: seq<byte>, after: seq<byte>, remaining: nat)
    requires Scalars(x) && UnitsIn(x) < 0x8000_0000
    ensures DecodeUtf16(before + Utf16Entry(x) + after, |before|, remaining) == Claim(Utf8Of(x), remaining)
  {
    hide Prefix16, Length16, Utf8Of, Utf16Of, UnitsIn, Utf16ToUtf8;
    var s := before + Utf16Entry(x) + after;
    var a := |before|;
    var b := a + |Prefix16(UnitsIn(x))|;
    var c := b + 2 * UnitsIn(x);
    assert s[a..b] == Prefix16(UnitsIn(x)) && s[b..c] == Utf16Of(x);
    assert s[c] == 0 && s[c + 1] == 0;
    Prefix16Reads(s, a, UnitsIn(x));
    Utf16Reads(x, s, b);
  }

  /** The same text in either kind of pool is the same string, at the same cost. */
  lemma PoolsAgree(x: seq<nat>, before: seq<byte>, after: seq<byte>, before': seq<byte>, after': seq<byte>,
                   remaining: nat)
    requires Scalars(x) && UnitsIn(x) < 0x8000 && |Utf8Of(x)| < 0x8000
    ensures DecodeUtf8(before + Utf8Entry(x) + after, |before|, remaining)
         == DecodeUtf16(before' + Utf16Entry(x) + after', |before'|, remaining)
         == Claim(Utf8Of(x), remaining)
  {
    hide DecodeUtf8, DecodeUtf16, Utf8Entry, Utf16Entry, Utf8Of, UnitsIn, Claim;
    Utf8EntryReads(x, before, after, remaining);
    Utf16EntryReads(x, before', after', remaining);
  }

  /** Whatever bytes a pool holds: a string that is accepted is Unicode text. */
  lemma AcceptedStringIsText(s: seq<byte>, h: PoolHeader, index: nat, remaining: nat) returns (x: seq<nat>)
    requires DecodeString(s, h, index, remaining).Some?
    ensures Scalars(x)
    ensures DecodeString(s, h, index, remaining) == Claim(Utf8Of(x), remaining)
  {
    hide Utf8.Valid, Utf16ToUtf8, UnitCount, Length8, Length16, Utf8Of;
    var at := h.stringsStart + Le32(s, POOL_HEADER + index * 4).value;
    var d := DecodeString(s, h, index, remaining).value;
    if h.utf8 {
      x := Utf8IsText(d.text);
    } else {
      var units := Length16(s, at).value;
      x := Utf16IsText(s, units.next, units.value);
    }
  }
}
