/** A whole binary manifest as it is written: the string pool, the resource map and
    the chunks of its elements, and the proof that reading it chunk by chunk does
    what those elements say. */
module ManifestPieces {
  import opened Common
  import opened Manifest
  import opened ManifestText
  import opened ManifestTree

  // ---- Pieces ----------------------------------------------------------

  /** A namespace that starts or ends, an element that starts, an element that ends.
      Free bytes are those nothing depends on. */
  datatype Piece = Space(opens: bool, free: seq<byte>) | Begin(start: Start) | Finish(free: seq<byte>, name: u32)

  predicate Shaped(p: Piece) {
    match p
    case Space(_, free) => |free| == 16
    case Begin(start) => Sized(start)
    case Finish(free, _) => |free| == 12
  }

  predicate GoodPiece(p: Piece, pool: seq<Str>) {
    Shaped(p) && match p case Space(_, _) => true case Begin(e) => GoodStart(e, pool) case Finish(_, n) => n < |pool|
  }

  function PieceSize(p: Piece): nat {
    if p.Begin? then START_SIZE + 20 * |p.start.attributes| else 24
  }

  function PieceKind(p: Piece): u16 {
    match p
    case Space(opens, _) => if opens then RES_START_NAMESPACE else RES_END_NAMESPACE
    case Begin(_) => RES_START_ELEMENT
    case Finish(_, _) => RES_END_ELEMENT
  }

  function PrintPiece(p: Piece): (s: seq<byte>)
    requires Shaped(p)
    ensures |s| == PieceSize(p)
  {
    match p
    case Space(_, free) => Tag(PieceKind(p), 16, 24) + free
    case Begin(start) => PrintStart(start)
    case Finish(free, name) => Tag(RES_END_ELEMENT, 16, 24) + (free + Word(name))
  }

  function EventsOfPiece(p: Piece, pool: seq<Str>, resources: seq<u32>): seq<Event>
    requires GoodPiece(p, pool)
  {
    match p
    case Space(_, _) => []
    case Begin(start) => [Opened(ElementOf(start, pool, resources))]
    case Finish(_, name) => [Closed(name)]
  }

  predicate PieceAt(s: seq<byte>, at: nat, p: Piece, pool: seq<Str>) {
    GoodPiece(p, pool) && at + PieceSize(p) <= |s| && s[at..at + PieceSize(p)] == PrintPiece(p)
  }

  /** Moves the stack and the facts, if there is anywhere to move them. */
  function Moved(st: State, w: Option<Nest>): Option<State> {
    match w
    case None => None
    case Some(next) => Some(st.(stack := next.stack, facts := next.facts))
  }

  lemma PieceFields(s: seq<byte>, at: nat, p: Piece)
    requires Shaped(p) && at + PieceSize(p) <= |s| && s[at..at + PieceSize(p)] == PrintPiece(p)
    ensures Le16(s, at) == Some(PieceKind(p)) && Le16(s, at + 2) == Some(16) && Le32(s, at + 4) == Some(PieceSize(p))
    ensures p.Finish? ==> Le32(s, at + 20) == Some(p.name)
  {
    hide Tag, PrintStart, Word, Le16, Le32;
    match p {
      case Space(_, free) =>
        Front(s, at, Tag(PieceKind(p), 16, 24), free);
      case Begin(start) =>
        StartFields(s, at, start);
      case Finish(free, name) =>
        Front(s, at, Tag(RES_END_ELEMENT, 16, 24), free + Word(name));
        Front(s, at + 8, free, Word(name));
        WordReads(s, at + 20, name);
    }
    TagReads(s, at, PieceKind(p), 16, PieceSize(p));
  }

  function ChunkOf(p: Piece, at: nat): Chunk {
    Chunk(PieceKind(p), 16, at, at + PieceSize(p))
  }

  lemma PieceChunk(s: seq<byte>, at: nat, p: Piece, pool: seq<Str>)
    requires PieceAt(s, at, p, pool)
    ensures ReadChunk(s, at) == Some(ChunkOf(p, at))
  {
    hide PrintPiece, Le16, Le32;
    PieceFields(s, at, p);
  }

  /** A piece does to the state what its events do to the stack and the facts. */
  lemma PieceTakes(s: seq<byte>, st: State, at: nat, p: Piece, pool: seq<Str>, resources: seq<u32>, expected: Str)
    requires PieceAt(s, at, p, pool) && st.strings == Some(pool)
    requires st.resources == Some(resources) || p.Space?
    ensures Take(s, st, ChunkOf(p, at), expected)
         == Moved(st, Follow(pool, expected, NestOf(st), EventsOfPiece(p, pool, resources)))
  {
    hide PrintPiece, Le16, Le32, ReadPool, ReadResourceMap, ReadElement, Note, FollowOne, PrintStart, AttributesOf;
    hide GoodAttributes, MANIFEST, APPLICATION;
    PieceFields(s, at, p);
    match p {
      case Space(_, _) =>
      case Begin(start) =>
        BeginStarts(s, at, start, pool, resources);
        StartReads(s, at, at + PieceSize(p), start, ElementOf(start, pool, resources), pool, resources);
        FollowSingle(pool, expected, NestOf(st), Opened(ElementOf(start, pool, resources)));
        BeginTakes(s, st, at, start, pool, resources, expected);
      case Finish(_, name) =>
        FollowSingle(pool, expected, NestOf(st), Closed(name));
        FinishTakes(s, st, at, p, pool, expected);
    }
  }

  lemma BeginStarts(s: seq<byte>, at: nat, start: Start, pool: seq<Str>, resources: seq<u32>)
    requires PieceAt(s, at, Begin(start), pool)
    ensures Starts(s, at, at + PieceSize(Begin(start)), start, ElementOf(start, pool, resources), pool, resources)
  {
    hide PrintStart, AttributesOf, GoodAttributes;
  }

  lemma BeginTakes(s: seq<byte>, st: State, at: nat, start: Start, pool: seq<Str>, resources: seq<u32>, expected: Str)
    requires PieceAt(s, at, Begin(start), pool) && st.strings == Some(pool) && st.resources == Some(resources)
    requires ReadElement(s, at, at + PieceSize(Begin(start)), 16, pool, resources)
          == Some(ElementOf(start, pool, resources))
    ensures Open(s, st, ChunkOf(Begin(start), at), expected)
         == Moved(st, FollowOne(pool, expected, NestOf(st), Opened(ElementOf(start, pool, resources))))
  {
    hide PrintPiece, ReadElement, Note, PrintStart, AttributesOf, GoodAttributes;
  }

  lemma FinishTakes(s: seq<byte>, st: State, at: nat, p: Piece, pool: seq<Str>, expected: Str)
    requires PieceAt(s, at, p, pool) && p.Finish? && st.strings == Some(pool)
    requires Le32(s, at + 20) == Some(p.name)
    ensures Close(s, st, ChunkOf(p, at)) == Moved(st, FollowOne(pool, expected, NestOf(st), Closed(p.name)))
  {
    hide PrintPiece, Le32;
  }

  /** Nothing but a piece is taken once the pool and the resource map are there. */
  lemma PieceIs(s: seq<byte>, st: State, at: nat, expected: Str) returns (p: Piece)
    requires ReadChunk(s, at).Some? && st.strings.Some?
    requires Take(s, st, ReadChunk(s, at).value, expected).Some?
    requires st.resources.Some? || (ReadChunk(s, at).value.kind != RES_RESOURCE_MAP && st.stack == [])
    ensures PieceAt(s, at, p, st.strings.value) && (p.Space? || st.resources.Some?)
    ensures p.Space? <==> ReadChunk(s, at).value.kind in {RES_START_NAMESPACE, RES_END_NAMESPACE}
  {
    hide Le16, Le32, ReadPool, ReadResourceMap, ReadElement, Note, PrintStart, GoodAttributes, Tag, Word;
    hide MANIFEST, APPLICATION;
    var c := ReadChunk(s, at).value;
    ChunkFields(s, at);
    if c.kind == RES_START_ELEMENT {
      var e := StartIs(s, at, c.end, c.headerSize, st.strings.value, st.resources.value);
      p := Begin(e);
    } else if c.kind == RES_END_ELEMENT {
      p := FinishIs(s, st, at);
    } else {
      p := Space(c.kind == RES_START_NAMESPACE, s[at + 8..at + 24]);
      TagReads(s, at, c.kind, 16, 24);
      Front(s, at, Tag(c.kind, 16, 24), s[at + 8..at + 24]);
    }
  }

  lemma ChunkFields(s: seq<byte>, at: nat)
    requires ReadChunk(s, at).Some?
    ensures var c := ReadChunk(s, at).value;
            && Le16(s, at) == Some(c.kind) && c.headerSize < 0x1_0000 && Le16(s, at + 2) == Some(c.headerSize)
            && c.end - at < 0x1_0000_0000 && Le32(s, at + 4) == Some(c.end - at) && c.start == at
  {
  }

  lemma FinishIs(s: seq<byte>, st: State, at: nat) returns (p: Piece)
    requires ReadChunk(s, at).Some? && ReadChunk(s, at).value.kind == RES_END_ELEMENT
    requires Close(s, st, ReadChunk(s, at).value).Some?
    ensures p.Finish? && st.strings.Some? && PieceAt(s, at, p, st.strings.value)
  {
    hide Le16, Le32, Tag, Word;
    ChunkFields(s, at);
    IsLe32(s, at + 20);
    var name := Le32(s, at + 20).value;
    p := Finish(s[at + 8..at + 20], name);
    TagReads(s, at, RES_END_ELEMENT, 16, 24);
    WordReads(s, at + 20, name);
    Front(s, at + 8, s[at + 8..at + 20], Word(name));
    Front(s, at, Tag(RES_END_ELEMENT, 16, 24), s[at + 8..at + 20] + Word(name));
  }

  // ---- One piece after another -----------------------------------------

  predicate GoodPieces(pieces: seq<Piece>, pool: seq<Str>) {
    forall i :: 0 <= i < |pieces| ==> GoodPiece(pieces[i], pool)
  }

  predicate Spaces(pieces: seq<Piece>) {
    forall i :: 0 <= i < |pieces| ==> pieces[i].Space?
  }

  function PrintPieces(pieces: seq<Piece>, pool: seq<Str>): seq<byte>
    requires GoodPieces(pieces, pool)
  {
    if pieces == [] then [] else PrintPiece(pieces[0]) + PrintPieces(pieces[1..], pool)
  }

  function EventsOfPieces(pieces: seq<Piece>, pool: seq<Str>, resources: seq<u32>): seq<Event>
    requires GoodPieces(pieces, pool)
  {
    if pieces == [] then []
    else EventsOfPiece(pieces[0], pool, resources) + EventsOfPieces(pieces[1..], pool, resources)
  }

  predicate PiecesAt(s: seq<byte>, at: nat, pieces: seq<Piece>, end: nat, pool: seq<Str>) {
    GoodPieces(pieces, pool) && at <= end <= |s| && s[at..end] == PrintPieces(pieces, pool)
  }

  lemma GoodCons(p: Piece, more: seq<Piece>, pool: seq<Str>)
    ensures GoodPieces([p] + more, pool) <==> GoodPiece(p, pool) && GoodPieces(more, pool)
    ensures Spaces([p] + more) <==> p.Space? && Spaces(more)
  {
    hide GoodPiece;
    var all := [p] + more;
    assert all[0] == p;
    assert forall i :: 0 <= i < |more| ==> more[i] == all[i + 1];
    assert forall i :: 0 < i < |all| ==> all[i] == more[i - 1];
  }

  lemma PrintCons(p: Piece, more: seq<Piece>, pool: seq<Str>, resources: seq<u32>)
    requires GoodPiece(p, pool) && GoodPieces(more, pool)
    ensures GoodPieces([p] + more, pool)
    ensures PrintPieces([p] + more, pool) == PrintPiece(p) + PrintPieces(more, pool)
    ensures EventsOfPieces([p] + more, pool, resources)
         == EventsOfPiece(p, pool, resources) + EventsOfPieces(more, pool, resources)
  {
    hide GoodPiece, PrintPiece, EventsOfPiece, GoodPieces;
    GoodCons(p, more, pool);
    assert ([p] + more)[1..] == more;
  }

  lemma PiecesCons(s: seq<byte>, at: nat, p: Piece, more: seq<Piece>, end: nat, pool: seq<Str>)
    ensures PiecesAt(s, at, [p] + more, end, pool)
       <==> PieceAt(s, at, p, pool) && PiecesAt(s, at + PieceSize(p), more, end, pool)
  {
    hide GoodPiece, PrintPiece, GoodPieces, PrintPieces, PieceSize;
    GoodCons(p, more, pool);
    if GoodPiece(p, pool) && GoodPieces(more, pool) {
      assert Shaped(p) by {
        GoodIsShaped(p, pool);
      }
      PrintCons(p, more, pool, []);
      if at + PieceSize(p) + |PrintPieces(more, pool)| <= |s| {
        Front(s, at, PrintPiece(p), PrintPieces(more, pool));
      }
    }
  }

  lemma GoodIsShaped(p: Piece, pool: seq<Str>)
    requires GoodPiece(p, pool)
    ensures Shaped(p)
  {
  }

  /** Pieces in a row do what their events do. */
  lemma {:induction false} PiecesTake(s: seq<byte>, st: State, at: nat, pieces: seq<Piece>, end: nat, pool: seq<Str>,
                                      resources: seq<u32>, expected: Str)
    requires PiecesAt(s, at, pieces, end, pool) && st.strings == Some(pool)
    requires st.resources == Some(resources) || Spaces(pieces)
    ensures TakeAll(s, st, at, expected)
         == match Moved(st, Follow(pool, expected, NestOf(st), EventsOfPieces(pieces, pool, resources)))
            case None => None
            case Some(next) => TakeAll(s, next, end, expected)
    decreases |pieces|
  {
    hide GoodPiece, PrintPiece, GoodPieces, PieceAt, EventsOfPiece, FollowOne, Take, ReadChunk, PrintPieces;
    if pieces == [] {
      NoPieces(s, at, end, pool);
    } else {
      hide PiecesAt, Follow, Spaces;
      var p, more := pieces[0], pieces[1..];
      assert pieces == [p] + more;
      PiecesCons(s, at, p, more, end, pool);
      PieceAtIs(s, at, p, pool);
      PiecesAtIs(s, at + PieceSize(p), more, end, pool);
      GoodCons(p, more, pool);
      PrintCons(p, more, pool, resources);
      PieceChunk(s, at, p, pool);
      PieceTakes(s, st, at, p, pool, resources, expected);
      var events := EventsOfPiece(p, pool, resources);
      FollowAppend(pool, expected, NestOf(st), events, EventsOfPieces(more, pool, resources));
      match Moved(st, Follow(pool, expected, NestOf(st), events)) {
        case None =>
        case Some(next) => PiecesTake(s, next, at + PieceSize(p), more, end, pool, resources, expected);
      }
    }
  }

  lemma NoPieces(s: seq<byte>, at: nat, end: nat, pool: seq<Str>)
    requires PiecesAt(s, at, [], end, pool)
    ensures at == end
  {
  }

  lemma PieceAtIs(s: seq<byte>, at: nat, p: Piece, pool: seq<Str>)
    requires PieceAt(s, at, p, pool)
    ensures GoodPiece(p, pool) && at + 8 <= at + PieceSize(p) <= |s|
  {
  }

  lemma PiecesAtIs(s: seq<byte>, at: nat, pieces: seq<Piece>, end: nat, pool: seq<Str>)
    requires PiecesAt(s, at, pieces, end, pool)
    ensures GoodPieces(pieces, pool) && at <= end <= |s|
  {
  }

  lemma TakesFirst(s: seq<byte>, st: State, at: nat, expected: Str) returns (next: State, c: Chunk)
    requires at < |s| && TakeAll(s, st, at, expected).Some?
    ensures ReadChunk(s, at) == Some(c) && Take(s, st, c, expected) == Some(next)
    ensures TakeAll(s, st, at, expected) == TakeAll(s, next, c.end, expected)
  {
    hide Take;
    c := ReadChunk(s, at).value;
    next := Take(s, st, c, expected).value;
  }

  /** Once the pool and the resource map are there, all that is taken are pieces. */
  lemma {:induction false} PiecesAre(s: seq<byte>, st: State, at: nat, expected: Str) returns (pieces: seq<Piece>)
    requires at <= |s| && st.strings.Some? && st.resources.Some? && TakeAll(s, st, at, expected).Some?
    ensures PiecesAt(s, at, pieces, |s|, st.strings.value)
    decreases |s| - at
  {
    hide Take, PieceAt, PiecesAt, TakeAll, PieceSize, ReadChunk, GoodPiece;
    var pool := st.strings.value;
    if at == |s| {
      pieces := [];
      NothingAt(s, at, pool);
    } else {
      var next, c := TakesFirst(s, st, at, expected);
      ChunkRoom(s, at);
      ChunkFields(s, at);
      var p := PieceIs(s, st, at, expected);
      PieceChunk(s, at, p, pool);
      KeepsPool(s, st, c, expected);
      var more := PiecesAre(s, next, c.end, expected);
      pieces := [p] + more;
      PiecesCons(s, at, p, more, |s|, pool);
    }
  }

  lemma KeepsPool(s: seq<byte>, st: State, c: Chunk, expected: Str)
    requires c.start + 8 <= c.end <= |s| && st.strings.Some? && Take(s, st, c, expected).Some?
    ensures var next := Take(s, st, c, expected).value;
            && next.strings == st.strings && (st.resources.Some? ==> next.resources == st.resources)
            && (c.kind in {RES_START_NAMESPACE, RES_END_NAMESPACE} ==> next == st)
  {
    hide ReadPool, ReadResourceMap, ReadElement, Note, MANIFEST, APPLICATION, Le32;
  }

  // ---- The resource map ------------------------------------------------

  function PrintWords(words: seq<u32>): (s: seq<byte>)
    ensures |s| == 4 * |words|
  {
    if words == [] then [] else Word(words[0]) + PrintWords(words[1..])
  }

  function PrintMap(resources: seq<u32>): (s: seq<byte>)
    requires |resources| <= POOL_STRINGS_LIMIT
    ensures |s| == 8 + 4 * |resources|
  {
    Tag(RES_RESOURCE_MAP, 8, 8 + 4 * |resources|) + PrintWords(resources)
  }

  predicate WordAt(s: seq<byte>, at: nat, word: u32) {
    Le32(s, at) == Some(word)
  }

  predicate WordsAt(s: seq<byte>, at: nat, words: seq<u32>) {
    forall i :: 0 <= i < |words| ==> WordAt(s, at + 4 * i, words[i])
  }

  lemma {:induction false} WordsRead(s: seq<byte>, at: nat, words: seq<u32>)
    requires at + 4 * |words| <= |s|
    ensures s[at..at + 4 * |words|] == PrintWords(words) <==> WordsAt(s, at, words)
    decreases |words|
  {
    hide Word, WordAt, WordsAt;
    if words == [] {
      assert WordsAt(s, at, []) by {
        NoWords(s, at);
      }
    } else {
      var first, more := Word(words[0]), PrintWords(words[1..]);
      assert 4 * |words| == |first| + |more|;
      Front(s, at, first, more);
      WordsRead(s, at + 4, words[1..]);
      FirstWord(s, at, words[0]);
      Shifted(s, at, words);
    }
  }

  lemma NoWords(s: seq<byte>, at: nat)
    ensures WordsAt(s, at, [])
  {
  }

  lemma FirstWord(s: seq<byte>, at: nat, word: u32)
    requires at + 4 <= |s|
    ensures s[at..at + 4] == Word(word) <==> WordAt(s, at, word)
  {
    hide Word, Le32;
    WordReads(s, at, word);
  }

  lemma Shifted(s: seq<byte>, at: nat, words: seq<u32>)
    requires words != []
    ensures WordsAt(s, at, words) <==> WordAt(s, at, words[0]) && WordsAt(s, at + 4, words[1..])
  {
    hide WordAt;
    var more := words[1..];
    if WordsAt(s, at, words) {
      assert WordAt(s, at + 4 * 0, words[0]);
      forall i | 0 <= i < |more| ensures WordAt(s, at + 4 + 4 * i, more[i]) {
        assert WordAt(s, at + 4 * (i + 1), words[i + 1]);
      }
    }
    if WordAt(s, at, words[0]) && WordsAt(s, at + 4, more) {
      forall i | 0 <= i < |words| ensures WordAt(s, at + 4 * i, words[i]) {
        if i > 0 {
          assert WordAt(s, at + 4 + 4 * (i - 1), more[i - 1]);
        }
      }
    }
  }

  /** A resource map is read exactly when it is written so, with as many entries as
      there are strings at most and one at least. */
  lemma MapReads(s: seq<byte>, count: nat, resources: seq<u32>)
    requires count <= POOL_STRINGS_LIMIT
    ensures ReadResourceMap(s, count) == Some(resources)
       <==> 0 < |resources| <= count && s == PrintMap(resources)
  {
    hide Tag, PrintWords, Le16, Le32;
    var n := |resources|;
    if 0 < n <= count && |s| == 8 + 4 * n {
      Front(s, 0, Tag(RES_RESOURCE_MAP, 8, 8 + 4 * n), PrintWords(resources));
      TagReads(s, 0, RES_RESOURCE_MAP, 8, 8 + 4 * n);
      WordsRead(s, 8, resources);
      assert s[0..8 + 4 * n] == s && (|s| - 8) / 4 == n;
      forall i | 0 <= i < n ensures Le32(s, 8 + i * 4).Some? {
        IsLe32(s, 8 + i * 4);
      }
      var read := seq(n, i requires 0 <= i < n => Le32(s, 8 + i * 4).value);
      if read == resources {
        forall i | 0 <= i < n ensures WordAt(s, 8 + 4 * i, resources[i]) {
          assert read[i] == resources[i];
        }
      }
      if WordsAt(s, 8, resources) {
        forall i | 0 <= i < n ensures read[i] == resources[i] {
          assert WordAt(s, 8 + 4 * i, resources[i]);
        }
        assert read == resources;
      }
    }
  }

  // ---- Documents -------------------------------------------------------

  /** The chunks of a manifest after its header: the pool, namespaces, the resource
      map, and then the elements with more namespaces anywhere between. */
  datatype Document = Document(pool: seq<byte>, before: seq<Piece>, resources: seq<u32>, body: seq<Piece>)

  /** The bytes of a pool with these strings. */
  predicate PoolOf(pool: seq<byte>, strings: seq<Str>) {
    |pool| >= POOL_HEADER && Le32(pool, 4) == Some(|pool|) && ReadPool(pool) == Some(strings)
  }

  predicate GoodDocument(d: Document, strings: seq<Str>) {
    && PoolOf(d.pool, strings) && Spaces(d.before) && GoodPieces(d.before, strings)
    && 0 < |d.resources| <= |strings| <= POOL_STRINGS_LIMIT && GoodPieces(d.body, strings)
  }

  function Inside(d: Document, strings: seq<Str>): seq<byte>
    requires GoodDocument(d, strings)
  {
    d.pool + (PrintPieces(d.before, strings) + (PrintMap(d.resources) + PrintPieces(d.body, strings)))
  }

  /** The bytes of a whole manifest. */
  predicate Prints(s: seq<byte>, d: Document, strings: seq<Str>)
    requires GoodDocument(d, strings)
  {
    8 + |Inside(d, strings)| < 0x1_0000_0000 && s == Tag(RES_XML, 8, 8 + |Inside(d, strings)|) + Inside(d, strings)
  }

  /** The same by places. */
  predicate LaidOut(s: seq<byte>, d: Document, a: nat, b: nat, c: nat, strings: seq<Str>) {
    && GoodPrefix(s) && a == 8 + |d.pool| <= |s| && s[8..a] == d.pool
    && PiecesAt(s, a, d.before, b, strings)
    && |d.resources| <= POOL_STRINGS_LIMIT && c == b + |PrintMap(d.resources)| <= |s|
    && s[b..c] == PrintMap(d.resources)
    && PiecesAt(s, c, d.body, |s|, strings)
  }

  lemma PrefixIs(s: seq<byte>, inside: seq<byte>)
    requires 8 + |inside| < 0x1_0000_0000
    ensures s == Tag(RES_XML, 8, 8 + |inside|) + inside <==> GoodPrefix(s) && s[8..] == inside
  {
    hide Tag, Le16, Le32;
    if |s| == 8 + |inside| {
      Front(s, 0, Tag(RES_XML, 8, 8 + |inside|), inside);
      TagReads(s, 0, RES_XML, 8, 8 + |inside|);
      assert s[0..8 + |inside|] == s && s[8..8 + |inside|] == s[8..];
    }
  }

  lemma PrintedIsLaidOut(s: seq<byte>, d: Document, strings: seq<Str>) returns (a: nat, b: nat, c: nat)
    requires GoodDocument(d, strings) && Prints(s, d, strings)
    ensures LaidOut(s, d, a, b, c, strings)
  {
    hide Tag, GoodPieces, PrintPieces, PrintMap, GoodPrefix, PoolOf;
    var inside := Inside(d, strings);
    PrefixIs(s, inside);
    var before, words, body := PrintPieces(d.before, strings), PrintMap(d.resources), PrintPieces(d.body, strings);
    a := 8 + |d.pool|;
    b := a + |before|;
    c := b + |words|;
    assert s[8..8 + |d.pool| + |before + (words + body)|] == s[8..];
    Front(s, 8, d.pool, before + (words + body));
    Front(s, a, before, words + body);
    Front(s, b, words, body);
  }

  lemma LaidOutIsPrinted(s: seq<byte>, d: Document, a: nat, b: nat, c: nat, strings: seq<Str>)
    requires GoodDocument(d, strings) && LaidOut(s, d, a, b, c, strings)
    ensures Prints(s, d, strings)
  {
    hide Tag, GoodPieces, PrintPieces, PrintMap, PoolOf;
    var before, words, body := PrintPieces(d.before, strings), PrintMap(d.resources), PrintPieces(d.body, strings);
    Front(s, b, words, body);
    Front(s, a, before, words + body);
    Front(s, 8, d.pool, before + (words + body));
    assert s[8..8 + |d.pool| + |before + (words + body)|] == s[8..];
    PrefixIs(s, Inside(d, strings));
  }

  lemma PoolFields(pool: seq<byte>)
    requires |pool| >= POOL_HEADER && ReadPool(pool).Some?
    ensures Le16(pool, 0) == Some(RES_STRING_POOL) && Le16(pool, 2) == Some(POOL_HEADER)
    ensures |ReadPool(pool).value| <= POOL_STRINGS_LIMIT
  {
    PoolWithinBudget(pool);
    hide DecodeStrings, Le16, Le32, Bytes;
  }

  lemma SameFields(s: seq<byte>, at: nat, size: nat)
    requires 8 <= size && at + size <= |s|
    ensures var t := s[at..at + size];
            Le16(s, at) == Le16(t, 0) && Le16(s, at + 2) == Le16(t, 2) && Le32(s, at + 4) == Le32(t, 4)
  {
  }

  lemma PoolTakes(s: seq<byte>, pool: seq<byte>, strings: seq<Str>, expected: Str)
    requires PoolOf(pool, strings) && 8 + |pool| <= |s| && s[8..8 + |pool|] == pool
    ensures TakeAll(s, NewState(), 8, expected)
         == TakeAll(s, NewState().(strings := Some(strings)), 8 + |pool|, expected)
  {
    hide Take, TakeAll, ReadChunk;
    PoolChunk(s, pool, strings);
    var c := Chunk(RES_STRING_POOL, POOL_HEADER, 8, 8 + |pool|);
    PoolTaken(s, c, pool, strings, expected);
    StepTakes(s, NewState(), c, NewState().(strings := Some(strings)), expected);
  }

  lemma StepTakes(s: seq<byte>, st: State, c: Chunk, next: State, expected: Str)
    requires c.start + 8 <= c.end <= |s| && ReadChunk(s, c.start) == Some(c) && Take(s, st, c, expected) == Some(next)
    ensures TakeAll(s, st, c.start, expected) == TakeAll(s, next, c.end, expected)
  {
    hide Take, ReadChunk;
  }

  lemma PoolChunk(s: seq<byte>, pool: seq<byte>, strings: seq<Str>)
    requires PoolOf(pool, strings) && 8 + |pool| <= |s| && s[8..8 + |pool|] == pool
    ensures ReadChunk(s, 8) == Some(Chunk(RES_STRING_POOL, POOL_HEADER, 8, 8 + |pool|))
  {
    hide Le16, Le32, ReadPool;
    PoolFields(pool);
    SameFields(s, 8, |pool|);
  }

  lemma PoolTaken(s: seq<byte>, c: Chunk, pool: seq<byte>, strings: seq<Str>, expected: Str)
    requires PoolOf(pool, strings) && c.start + 8 <= c.end <= |s| && s[c.start..c.end] == pool
    requires c.kind == RES_STRING_POOL
    ensures Take(s, NewState(), c, expected) == Some(NewState().(strings := Some(strings)))
  {
    hide ReadPool, ReadResourceMap, Open, Close;
  }

  lemma MapTakes(s: seq<byte>, st: State, at: nat, strings: seq<Str>, resources: seq<u32>, expected: Str)
    requires st.strings == Some(strings) && st.resources.None? && st.stack == []
    requires 0 < |resources| <= |strings| <= POOL_STRINGS_LIMIT
    requires at + |PrintMap(resources)| <= |s| && s[at..at + |PrintMap(resources)|] == PrintMap(resources)
    ensures TakeAll(s, st, at, expected)
         == TakeAll(s, st.(resources := Some(resources)), at + |PrintMap(resources)|, expected)
  {
    hide Take, TakeAll, ReadChunk, PrintMap;
    MapChunk(s, at, resources);
    var c := Chunk(RES_RESOURCE_MAP, 8, at, at + |PrintMap(resources)|);
    MapTaken(s, st, c, strings, resources, expected);
    StepTakes(s, st, c, st.(resources := Some(resources)), expected);
  }

  lemma MapChunk(s: seq<byte>, at: nat, resources: seq<u32>)
    requires |resources| <= POOL_STRINGS_LIMIT
    requires at + |PrintMap(resources)| <= |s| && s[at..at + |PrintMap(resources)|] == PrintMap(resources)
    ensures ReadChunk(s, at) == Some(Chunk(RES_RESOURCE_MAP, 8, at, at + |PrintMap(resources)|))
  {
    hide Le16, Le32, Tag, PrintWords;
    var n := |resources|;
    Front(s, at, Tag(RES_RESOURCE_MAP, 8, 8 + 4 * n), PrintWords(resources));
    TagReads(s, at, RES_RESOURCE_MAP, 8, 8 + 4 * n);
  }

  lemma MapTaken(s: seq<byte>, st: State, c: Chunk, strings: seq<Str>, resources: seq<u32>, expected: Str)
    requires st.strings == Some(strings) && st.resources.None? && st.stack == []
    requires 0 < |resources| <= |strings| <= POOL_STRINGS_LIMIT && c.kind == RES_RESOURCE_MAP
    requires c.start + 8 <= c.end <= |s| && s[c.start..c.end] == PrintMap(resources)
    ensures Take(s, st, c, expected) == Some(st.(resources := Some(resources)))
  {
    hide ReadPool, ReadResourceMap, Open, Close, PrintMap;
    MapReads(PrintMap(resources), |strings|, resources);
  }

  lemma {:induction false} SpacesSayNothing(pieces: seq<Piece>, strings: seq<Str>, resources: seq<u32>)
    requires GoodPieces(pieces, strings) && Spaces(pieces)
    ensures EventsOfPieces(pieces, strings, resources) == []
    decreases |pieces|
  {
    if pieces != [] {
      SpacesSayNothing(pieces[1..], strings, resources);
    }
  }

  /** Reading a manifest does what its elements say to an empty stack. */
  lemma DocumentTakes(s: seq<byte>, d: Document, strings: seq<Str>, expected: Str)
    requires GoodDocument(d, strings) && Prints(s, d, strings)
    ensures GoodPrefix(s)
    ensures TakeAll(s, NewState(), 8, expected)
         == Moved(NewState().(strings := Some(strings), resources := Some(d.resources)),
                  Follow(strings, expected, NestOf(NewState()), EventsOfPieces(d.body, strings, d.resources)))
  {
    hide GoodPieces, PrintPieces, PrintMap, GoodPrefix, PoolOf, TakeAll, Prints, Spaces, FollowOne, EventsOfPieces;
    var a, b, c := PrintedIsLaidOut(s, d, strings);
    PoolTakes(s, d.pool, strings, expected);
    var first := NewState().(strings := Some(strings));
    PiecesTake(s, first, a, d.before, b, strings, d.resources, expected);
    SpacesSayNothing(d.before, strings, d.resources);
    assert TakeAll(s, first, a, expected) == TakeAll(s, first, b, expected);
    MapTakes(s, first, b, strings, d.resources, expected);
    var second := first.(resources := Some(d.resources));
    PiecesTake(s, second, c, d.body, |s|, strings, d.resources, expected);
    EndTakes(s, expected);
  }

  lemma EndTakes(s: seq<byte>, expected: Str)
    ensures forall st: State :: TakeAll(s, st, |s|, expected) == Some(st)
  {
  }

  // ---- And nothing else is read ----------------------------------------

  lemma PoolFirst(s: seq<byte>, expected: Str) returns (pool: seq<byte>, strings: seq<Str>)
    requires |s| > 8 && TakeAll(s, NewState(), 8, expected).Some?
    ensures PoolOf(pool, strings) && 8 + |pool| <= |s| && s[8..8 + |pool|] == pool && |strings| <= POOL_STRINGS_LIMIT
  {
    hide TakeAll, ReadPool, Le16, Le32, ReadResourceMap, ReadElement, Note, ReadChunk;
    var next, c := TakesFirst(s, NewState(), 8, expected);
    ChunkFields(s, 8);
    ChunkRoom(s, 8);
    pool := s[8..c.end];
    strings := ReadPool(pool).value;
    PoolLong(pool);
    SameFields(s, 8, |pool|);
    PoolFields(pool);
  }

  lemma ChunkRoom(s: seq<byte>, at: nat)
    requires ReadChunk(s, at).Some?
    ensures at + 8 <= ReadChunk(s, at).value.end <= |s|
  {
  }

  lemma PoolLong(pool: seq<byte>)
    requires ReadPool(pool).Some?
    ensures |pool| >= POOL_HEADER
  {
    hide DecodeStrings, Le16, Le32;
  }

  /** Up to the resource map there are only namespaces. */
  lemma {:induction false} SpacesAre(s: seq<byte>, st: State, at: nat, expected: Str)
    returns (before: seq<Piece>, b: nat, resources: seq<u32>)
    requires at <= |s| && TakeAll(s, st, at, expected).Some? && TakeAll(s, st, at, expected).value.resources.Some?
    requires st.strings.Some? && st.resources.None? && st.stack == [] && |st.strings.value| <= POOL_STRINGS_LIMIT
    ensures PiecesAt(s, at, before, b, st.strings.value) && Spaces(before)
    ensures 0 < |resources| <= |st.strings.value|
    ensures b + |PrintMap(resources)| <= |s| && s[b..b + |PrintMap(resources)|] == PrintMap(resources)
    ensures TakeAll(s, st.(resources := Some(resources)), b + |PrintMap(resources)|, expected)
         == TakeAll(s, st, at, expected)
    decreases |s| - at
  {
    EndTakes(s, expected);
    hide Take, PieceAt, PiecesAt, TakeAll, PrintMap, Spaces, ReadChunk;
    var next, c := TakesFirst(s, st, at, expected);
    ChunkFields(s, at);
    ChunkRoom(s, at);
    if c.kind == RES_RESOURCE_MAP {
      before, b := [], at;
      NothingAt(s, at, st.strings.value);
      resources := MapIs(s, st, c, next, expected);
    } else {
      var p := PieceIs(s, st, at, expected);
      PieceChunk(s, at, p, st.strings.value);
      KeepsPool(s, st, c, expected);
      before, b, resources := SpacesAre(s, next, at + PieceSize(p), expected);
      PiecesCons(s, at, p, before, b, st.strings.value);
      GoodCons(p, before, st.strings.value);
      before := [p] + before;
    }
  }

  lemma NothingAt(s: seq<byte>, at: nat, strings: seq<Str>)
    requires at <= |s|
    ensures PiecesAt(s, at, [], at, strings) && Spaces([])
  {
  }

  lemma MapIs(s: seq<byte>, st: State, c: Chunk, next: State, expected: Str) returns (resources: seq<u32>)
    requires c.start + 8 <= c.end <= |s| && c.kind == RES_RESOURCE_MAP && Take(s, st, c, expected) == Some(next)
    requires st.strings.Some? && |st.strings.value| <= POOL_STRINGS_LIMIT
    ensures next == st.(resources := Some(resources)) && 0 < |resources| <= |st.strings.value|
    ensures s[c.start..c.end] == PrintMap(resources) && c.end == c.start + |PrintMap(resources)|
  {
    hide ReadResourceMap, PrintMap;
    resources := ReadResourceMap(s[c.start..c.end], |st.strings.value|).value;
    MapReads(s[c.start..c.end], |st.strings.value|, resources);
  }

  /** Whatever is accepted as a manifest is written as one. */
  lemma DocumentIs(s: seq<byte>, expected: Str) returns (d: Document, strings: seq<Str>)
    requires ReadManifest(s, expected).Some?
    ensures GoodDocument(d, strings) && Prints(s, d, strings)
  {
    hide TakeAll, GoodPieces, PrintPieces, PrintMap, PoolOf, Spaces;
    PoolStays(s, NewState(), 8, expected);
    EndTakes(s, expected);
    var pool, all := PoolFirst(s, expected);
    strings := all;
    PoolTakes(s, pool, strings, expected);
    var before, b, resources := SpacesAre(s, NewState().(strings := Some(strings)), 8 + |pool|, expected);
    var c := b + |PrintMap(resources)|;
    var body := PiecesAre(s, NewState().(strings := Some(strings), resources := Some(resources)), c, expected);
    d := Document(pool, before, resources, body);
    LaidOutIsPrinted(s, d, 8 + |pool|, b, c, strings);
  }
}
