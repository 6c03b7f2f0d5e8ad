/** The OpenStep property-list reader: which keys the root dictionary has.  The
    functions read from the front of the remaining bytes. */
module OpenStep {
  import opened Common
  import Utf8

  const DEPTH_CAP := 128
  const NODE_CAP := 65_536

  type Key = seq<byte>

  // ---- Bytes -----------------------------------------------------------

  predicate Whitespace(b: byte) {
    b == 0x20 || b == 0x09 || b == 0x0A || b == 0x0C || b == 0x0D
  }

  predicate Newline(b: byte) {
    b == 0x0A || b == 0x0D
  }

  predicate HexDigit(b: byte) {
    0x30 <= b <= 0x39 || 0x41 <= b <= 0x46 || 0x61 <= b <= 0x66
  }

  predicate OctalDigit(b: byte) {
    0x30 <= b <= 0x37
  }

  /** Letters, digits and `_ $ / : . - +`. */
  predicate BareByte(b: byte) {
    || 0x30 <= b <= 0x39 || 0x41 <= b <= 0x5A || 0x61 <= b <= 0x7A
    || b == 0x5F || b == 0x24 || b == 0x2F || b == 0x3A || b == 0x2E || b == 0x2D || b == 0x2B
  }

  const QUOTE: byte := 0x22
  const BACKSLASH: byte := 0x5C
  const OPEN_BRACE: byte := 0x7B
  const CLOSE_BRACE: byte := 0x7D
  const OPEN_PAREN: byte := 0x28
  const CLOSE_PAREN: byte := 0x29
  const LESS_THAN: byte := 0x3C
  const GREATER_THAN: byte := 0x3E
  const EQUALS: byte := 0x3D
  const SEMICOLON: byte := 0x3B
  const COMMA: byte := 0x2C
  const SLASH: byte := 0x2F
  const STAR: byte := 0x2A
  const UPPER_U: byte := 0x55

  predicate At(s: seq<byte>, b: byte) {
    s != [] && s[0] == b
  }

  predicate AtPair(s: seq<byte>, a: byte, b: byte) {
    |s| >= 2 && s[0] == a && s[1] == b
  }

  // ---- Whitespace and comments -----------------------------------------

  function SkipLine(s: seq<byte>): (r: seq<byte>)
    ensures |r| <= |s|
    decreases |s|
  {
    if s == [] || Newline(s[0]) then s else SkipLine(s[1..])
  }

  function SkipBlock(s: seq<byte>): (r: Option<seq<byte>>)
    ensures r.Some? ==> |r.value| <= |s|
    decreases |s|
  {
    if s == [] then None
    else if AtPair(s, STAR, SLASH) then Some(s[2..])
    else SkipBlock(s[1..])
  }

  function SkipTrivia(s: seq<byte>): (r: Option<seq<byte>>)
    ensures r.Some? ==> |r.value| <= |s|
    decreases |s|
  {
    if s != [] && Whitespace(s[0]) then SkipTrivia(s[1..])
    else if AtPair(s, SLASH, SLASH) then SkipTrivia(SkipLine(s[2..]))
    else if AtPair(s, SLASH, STAR) then
      match SkipBlock(s[2..])
      case None => None
      case Some(rest) => SkipTrivia(rest)
    else Some(s)
  }

  // ---- Strings ---------------------------------------------------------

  function HexValue(b: byte): nat
    requires HexDigit(b)
  {
    if b <= 0x39 then b - 0x30 else if b <= 0x46 then b - 0x37 else b - 0x57
  }

  /** A scalar value in UTF-8; surrogates are not scalars. */
  function EncodeScalar(n: nat): Option<seq<byte>> {
    if n < 0x80 then Some([n])
    else if n < 0x800 then Some([0xC0 + n / 0x40, 0x80 + n % 0x40])
    else if 0xD800 <= n < 0xE000 || n >= 0x1_0000 then None
    else Some([0xE0 + n / 0x1000, 0x80 + n / 0x40 % 0x40, 0x80 + n % 0x40])
  }

  datatype Read = Read(value: seq<byte>, rest: seq<byte>)

  function Named(b: byte): Option<byte> {
    if b == QUOTE then Some(0x22)
    else if b == BACKSLASH then Some(0x5C)
    else if b == 0x61 then Some(0x07)
    else if b == 0x62 then Some(0x08)
    else if b == 0x66 then Some(0x0C)
    else if b == 0x6E then Some(0x0A)
    else if b == 0x72 then Some(0x0D)
    else if b == 0x74 then Some(0x09)
    else if b == 0x76 then Some(0x0B)
    else None
  }

  /** Up to `most` octal digits, as many as there are. */
  function OctalDigits(s: seq<byte>, most: nat, value: nat): (r: (nat, seq<byte>))
    ensures |r.1| <= |s|
    decreases most
  {
    if most == 0 || s == [] || !OctalDigit(s[0]) then (value, s)
    else OctalDigits(s[1..], most - 1, value * 8 + (s[0] - 0x30))
  }

  function Scalar(n: nat, rest: seq<byte>): Option<Read> {
    match EncodeScalar(n)
    case None => None
    case Some(bytes) => Some(Read(bytes, rest))
  }

  /** What follows a backslash. */
  function ReadEscape(s: seq<byte>): (r: Option<Read>)
    ensures r.Some? ==> |r.value.rest| < |s|
  {
    if s == [] then None
    else if Named(s[0]).Some? then Some(Read([Named(s[0]).value], s[1..]))
    else if s[0] == UPPER_U then ReadHex(s[1..])
    else if OctalDigit(s[0]) then ReadOctal(s[1..], s[0] - 0x30)
    else None
  }

  function ReadHex(s: seq<byte>): (r: Option<Read>)
    ensures r.Some? ==> |r.value.rest| <= |s|
  {
    if |s| < 4 || !HexDigit(s[0]) || !HexDigit(s[1]) || !HexDigit(s[2]) || !HexDigit(s[3]) then None
    else Scalar(HexValue(s[0]) * 0x1000 + HexValue(s[1]) * 0x100 + HexValue(s[2]) * 0x10 + HexValue(s[3]), s[4..])
  }

  function ReadOctal(s: seq<byte>, first: nat): (r: Option<Read>)
    ensures r.Some? ==> |r.value.rest| <= |s|
  {
    var (value, rest) := OctalDigits(s, 2, first);
    Scalar(value, rest)
  }

  /** The inside of a quoted string: `segment` is what has been passed over since
      the last escape, `value` what came before. */
  function ReadQuoted(s: seq<byte>, segment: seq<byte>, value: seq<byte>, capture: bool): (r: Option<Read>)
    ensures r.Some? ==> |r.value.rest| < |s|
    decreases |s|
  {
    if s == [] then None
    else if s[0] == QUOTE then
      if !capture then Some(Read([], s[1..]))
      else if !Utf8.Valid(segment) || value + segment == [] then None
      else Some(Read(value + segment, s[1..]))
    else if s[0] == BACKSLASH then
      if capture && !Utf8.Valid(segment) then None
      else
        match ReadEscape(s[1..])
        case None => None
        case Some(e) => ReadQuoted(e.rest, [], value + segment + e.value, capture)
    else if s[0] < 0x20 then None
    else ReadQuoted(s[1..], segment + [s[0]], value, capture)
  }

  function BareLength(s: seq<byte>): (n: nat)
    ensures n <= |s|
    decreases |s|
  {
    if s == [] || !BareByte(s[0]) then 0 else 1 + BareLength(s[1..])
  }

  function ReadString(s: seq<byte>, capture: bool): (r: Option<Read>)
    ensures r.Some? ==> |r.value.rest| < |s|
  {
    match SkipTrivia(s)
    case None => None
    case Some(t) =>
      if At(t, QUOTE) then ReadQuoted(t[1..], [], [], capture) else ReadBare(t, capture)
  }

  function ReadBare(t: seq<byte>, capture: bool): (r: Option<Read>)
    ensures r.Some? ==> |r.value.rest| < |t|
  {
    var n := BareLength(t);
    if n == 0 || !Utf8.Valid(t[..n]) then None
    else Some(Read(if capture then t[..n] else [], t[n..]))
  }

  function ReadData(s: seq<byte>, even: bool): (r: Option<seq<byte>>)
    ensures r.Some? ==> |r.value| < |s|
    decreases |s|
  {
    if s == [] then None
    else if s[0] == GREATER_THAN && even then Some(s[1..])
    else if HexDigit(s[0]) then ReadData(s[1..], !even)
    else if Whitespace(s[0]) then ReadData(s[1..], even)
    else None
  }

  // ---- Values ----------------------------------------------------------

  datatype Passed = Passed(rest: seq<byte>, nodes: nat)
  datatype Found = Found(keys: set<Key>, rest: seq<byte>, nodes: nat)

  function Enter(depth: nat, nodes: nat): Option<nat> {
    if depth > DEPTH_CAP || nodes + 1 > NODE_CAP then None else Some(nodes + 1)
  }

  function ReadDictionary(s: seq<byte>, depth: nat, nodes: nat): (r: Option<Found>)
    ensures r.Some? ==> |r.value.rest| < |s|
    decreases |s|, 1
  {
    match Enter(depth, nodes)
    case None => None
    case Some(n) => if !At(s, OPEN_BRACE) then None else ReadEntries(s[1..], depth, n, {})
  }

  function ReadEntries(s: seq<byte>, depth: nat, nodes: nat, keys: set<Key>): (r: Option<Found>)
    ensures r.Some? ==> |r.value.rest| < |s|
    decreases |s|, 0
  {
    match SkipTrivia(s)
    case None => None
    case Some(t) =>
      if At(t, CLOSE_BRACE) then Some(Found(keys, t[1..], nodes))
      else
        match ReadString(t, true)
        case None => None
        case Some(key) =>
          if key.value in keys then None
          else
            match ReadBinding(key.rest, depth, nodes)
            case None => None
            case Some(v) => ReadEntries(v.rest, depth, v.nodes, keys + {key.value})
  }

  /** What follows a key: the equals sign, a value and the semicolon. */
  function ReadBinding(s: seq<byte>, depth: nat, nodes: nat): (r: Option<Passed>)
    ensures r.Some? ==> |r.value.rest| < |s|
    decreases |s|, 0
  {
    match SkipTrivia(s)
    case None => None
    case Some(u) =>
      if !At(u, EQUALS) then None
      else
        match ReadValue(u[1..], depth + 1, nodes)
        case None => None
        case Some(v) =>
          match SkipTrivia(v.rest)
          case None => None
          case Some(w) => if At(w, SEMICOLON) then Some(Passed(w[1..], v.nodes)) else None
  }

  function ReadValue(s: seq<byte>, depth: nat, nodes: nat): (r: Option<Passed>)
    ensures r.Some? ==> |r.value.rest| < |s|
    decreases |s|, 2
  {
    match Enter(depth, nodes)
    case None => None
    case Some(n) =>
      match SkipTrivia(s)
      case None => None
      case Some(t) =>
        if t == [] then None
        else if t[0] == OPEN_BRACE then
          match ReadDictionary(t, depth, n)
          case None => None
          case Some(found) => Some(Passed(found.rest, found.nodes))
        else if t[0] == OPEN_PAREN then ReadArray(t[1..], depth, n)
        else if t[0] == LESS_THAN then
          match ReadData(t[1..], true)
          case None => None
          case Some(rest) => Some(Passed(rest, n))
        else
          match ReadString(t, false)
          case None => None
          case Some(read) => Some(Passed(read.rest, n))
  }

  function ReadArray(s: seq<byte>, depth: nat, nodes: nat): (r: Option<Passed>)
    ensures r.Some? ==> |r.value.rest| < |s|
    decreases |s|, 4
  {
    match SkipTrivia(s)
    case None => None
    case Some(t) => if At(t, CLOSE_PAREN) then Some(Passed(t[1..], nodes)) else ReadElements(t, depth, nodes)
  }

  function ReadElements(s: seq<byte>, depth: nat, nodes: nat): (r: Option<Passed>)
    ensures r.Some? ==> |r.value.rest| < |s|
    decreases |s|, 3
  {
    match ReadValue(s, depth + 1, nodes)
    case None => None
    case Some(v) =>
      match SkipTrivia(v.rest)
      case None => None
      case Some(t) =>
        if At(t, CLOSE_PAREN) then Some(Passed(t[1..], v.nodes))
        else if !At(t, COMMA) then None
        else ReadArray(t[1..], depth, v.nodes)
  }

  /** The keys of the root dictionary. */
  function ReadRoot(bytes: seq<byte>): Option<set<Key>> {
    match SkipTrivia(bytes)
    case None => None
    case Some(s) =>
      match ReadDictionary(s, 0, 0)
      case None => None
      case Some(found) =>
        match SkipTrivia(found.rest)
        case None => None
        case Some(rest) => if rest == [] then Some(found.keys) else None
  }
}
