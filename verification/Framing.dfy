/** The u16-big-endian outer envelope and its incremental decoder. */
module Framing {
  import opened Common
  import opened Terms

  const OUTER_MAX := 65_535

  function EncodeOuter(payload: seq<byte>): Result<seq<byte>, CloseReason> {
    if payload == [] then Err(Malformed)
    else if |payload| > OUTER_MAX then Err(Oversize)
    else Ok(Be16(|payload|) + payload)
  }

  /** The payload of a byte string that is exactly one envelope. */
  function OneOuter(outer: seq<byte>): Result<seq<byte>, CloseReason> {
    if |outer| < 2 then Err(Malformed)
    else
      var n := FromBe16(outer);
      if n == 0 || |outer| != n + 2 then Err(Malformed) else Ok(outer[2..])
  }

  lemma OuterIsExact(payload: seq<byte>, outer: seq<byte>)
    ensures EncodeOuter(payload) == Ok(outer) <==> OneOuter(outer) == Ok(payload)
  {
    if EncodeOuter(payload) == Ok(outer) {
      assert outer[2..] == payload;
    }
    if OneOuter(outer) == Ok(payload) {
      assert outer == Be16(|payload|) + outer[2..];
    }
  }

  /** What a byte stream means: the complete envelopes at its front and the
      bytes after them, or `Broken` once an envelope announces length zero. */
  datatype Scanned = Scanned(frames: seq<seq<byte>>, tail: seq<byte>) | Broken

  function Scan(stream: seq<byte>): Scanned
    decreases |stream|
  {
    if |stream| < 2 then Scanned([], stream)
    else
      var n := FromBe16(stream);
      if n == 0 then Broken
      else if |stream| < n + 2 then Scanned([], stream)
      else Before([stream[..n + 2]], Scan(stream[n + 2..]))
  }

  function Before(frames: seq<seq<byte>>, rest: Scanned): Scanned {
    match rest
    case Scanned(more, tail) => Scanned(frames + more, tail)
    case Broken => Broken
  }

  lemma BeforeBefore(a: seq<seq<byte>>, b: seq<seq<byte>>, rest: Scanned)
    ensures Before(a, Before(b, rest)) == Before(a + b, rest)
  {
    if rest.Scanned? {
      assert a + (b + rest.frames) == (a + b) + rest.frames;
    }
  }

  predicate IsEnvelope(frame: seq<byte>) {
    OneOuter(frame).Ok?
  }

  lemma ScanEnvelope(frame: seq<byte>, rest: seq<byte>)
    requires IsEnvelope(frame)
    ensures Scan(frame + rest) == Before([frame], Scan(rest))
  {
    var n := FromBe16(frame);
    assert FromBe16(frame + rest) == n;
    assert (frame + rest)[..n + 2] == frame && (frame + rest)[n + 2..] == rest;
  }

  lemma ScanUnopened(pending: seq<byte>)
    ensures |pending| < 2 ==> Scan(pending) == Scanned([], pending)
    ensures |pending| >= 2 && FromBe16(pending) == 0 ==> Scan(pending) == Broken
  {
  }

  lemma ScanShort(n: u16, pending: seq<byte>)
    requires |pending| < n
    ensures Scan(Be16(n) + pending) == Scanned([], Be16(n) + pending)
  {
    Be16Inverse(n, pending);
  }

  lemma ScanFull(n: u16, pending: seq<byte>)
    requires 0 < n <= |pending|
    ensures EncodeOuter(pending[..n]).Ok?
    ensures Scan(Be16(n) + pending) == Before([EncodeOuter(pending[..n]).value], Scan(pending[n..]))
  {
    var frame := Be16(n) + pending[..n];
    Be16Inverse(n, pending[..n]);
    SplitTail(Be16(n), pending, n);
    ScanEnvelope(frame, pending[n..]);
  }

  /** The decoder as a value: the bytes it still owes a frame for, or failed. */
  datatype DecoderState = Live(tail: seq<byte>) | Failed

  function PushSpec(d: DecoderState, input: seq<byte>): (DecoderState, Result<seq<seq<byte>>, CloseReason>) {
    match d
    case Failed => (Failed, Err(SequenceViolation))
    case Live(tail) =>
      match Scan(tail + input)
      case Broken => (Failed, Err(Malformed))
      case Scanned(frames, rest) => (Live(rest), Ok(frames))
  }

  /** `timeout` and `eof` differ only in the reason they report. */
  function EndSpec(d: DecoderState, reason: CloseReason): (DecoderState, Result<(), CloseReason>) {
    match d
    case Failed => (Failed, Err(SequenceViolation))
    case Live(tail) => if tail == [] then (d, Ok(())) else (Failed, Err(reason))
  }

  class OuterFrameDecoder {
    var pending: seq<byte>
    var expected: Option<nat>
    var failed: bool

    ghost predicate Valid()
      reads this
    {
      && (failed ==> pending == [] && expected.None?)
      && (expected.Some? ==> 0 < expected.value <= OUTER_MAX && |pending| < expected.value)
      && (expected.None? ==> |pending| < 2)
    }

    /** The undelivered bytes, the consumed length prefix included. */
    ghost function Owed(): seq<byte>
      reads this
      requires expected.Some? ==> expected.value <= OUTER_MAX
    {
      if expected.Some? then Be16(expected.value) + pending else pending
    }

    ghost function View(): DecoderState
      reads this
      requires Valid()
    {
      if failed then Failed else Live(Owed())
    }

    constructor ()
      ensures Valid() && View() == Live([])
    {
      pending, expected, failed := [], None, false;
    }

    method Clear()
      modifies this
      ensures pending == [] && expected == None && failed == old(failed)
    {
      pending, expected := [], None;
    }

    method Push(input: seq<byte>) returns (r: Result<seq<seq<byte>>, CloseReason>)
      requires Valid()
      modifies this
      ensures Valid() && (View(), r) == PushSpec(old(View()), input)
    {
      hide Scan, Be16, FromBe16;
      if failed {
        return Err(SequenceViolation);
      }
      ghost var stream := Owed() + input;
      pending := pending + input;
      assert Owed() == stream;
      var frames: seq<seq<byte>> := [];
      while true
        invariant !failed
        invariant expected.Some? ==> 0 < expected.value <= OUTER_MAX
        invariant Scan(stream) == Before(frames, Scan(Owed()))
        decreases |pending|, expected.None?
      {
        if expected.None? {
          ScanUnopened(pending);
          if |pending| < 2 {
            break;
          }
          var n := FromBe16(pending);
          FromBe16Inverse(pending);
          pending := pending[2..];
          if n == 0 {
            Clear();
            failed := true;
            return Err(Malformed);
          }
          expected := Some(n);
        }
        var n := expected.value;
        if |pending| < n {
          ScanShort(n, pending);
          break;
        }
        ScanFull(n, pending);
        var frame := EncodeOuter(pending[..n]);
        pending := pending[n..];
        BeforeBefore(frames, [frame.value], Scan(pending));
        frames := frames + [frame.value];
        expected := None;
      }
      assert frames + [] == frames;
      r := Ok(frames);
    }

    method IsIncomplete() returns (incomplete: bool)
      requires Valid() && !failed
      ensures incomplete <==> View() != Live([])
    {
      incomplete := expected.Some? || pending != [];
    }

    method Timeout() returns (r: Result<(), CloseReason>)
      requires Valid()
      modifies this
      ensures Valid() && (View(), r) == EndSpec(old(View()), CloseReason.Timeout)
    {
      if failed {
        return Err(SequenceViolation);
      }
      if expected.Some? || pending != [] {
        Clear();
        failed := true;
        return Err(CloseReason.Timeout);
      }
      r := Ok(());
    }

    method Eof() returns (r: Result<(), CloseReason>)
      requires Valid()
      modifies this
      ensures Valid() && (View(), r) == EndSpec(old(View()), Malformed)
    {
      if failed {
        return Err(SequenceViolation);
      }
      if expected.Some? || pending != [] {
        Clear();
        failed := true;
        return Err(Malformed);
      }
      r := Ok(());
    }
  }

  /** Scanning neither loses, invents nor reorders a byte. */
  lemma {:induction false} ScanConserves(stream: seq<byte>)
    requires Scan(stream).Scanned?
    ensures Concat(Scan(stream).frames) + Scan(stream).tail == stream
    decreases |stream|
  {
    if |stream| >= 2 && |stream| >= FromBe16(stream) + 2 {
      var n := FromBe16(stream);
      var frame, rest := stream[..n + 2], stream[n + 2..];
      ScanConserves(rest);
      ConcatCons(frame, Scan(rest).frames);
      assert stream == frame + rest;
    }
  }

  /** Every frame a scan yields is one envelope, and the bytes it leaves hold
      no complete one. */
  lemma {:induction false} ScanIsMaximal(stream: seq<byte>)
    requires Scan(stream).Scanned?
    ensures forall i :: 0 <= i < |Scan(stream).frames| ==> IsEnvelope(Scan(stream).frames[i])
    ensures Scan(Scan(stream).tail) == Scanned([], Scan(stream).tail)
    decreases |stream|
  {
    if |stream| >= 2 && |stream| >= FromBe16(stream) + 2 {
      var n := FromBe16(stream);
      var frame, rest := stream[..n + 2], stream[n + 2..];
      ScanIsMaximal(rest);
      assert Scan(stream) == Scanned([frame] + Scan(rest).frames, Scan(rest).tail);
      assert FromBe16(frame) == n;
    }
  }

  lemma ScanFirst(a: seq<byte>, b: seq<byte>)
    requires |a| >= 2 && FromBe16(a) != 0 && |a| >= FromBe16(a) + 2
    ensures Scan(a + b) == Before([a[..FromBe16(a) + 2]], Scan(a[FromBe16(a) + 2..] + b))
  {
    var n := FromBe16(a);
    assert FromBe16(a + b) == n;
    assert (a + b)[..n + 2] == a[..n + 2];
    assert (a + b)[n + 2..] == a[n + 2..] + b;
  }

  /** More input never changes what was already recognised. */
  lemma {:induction false} ScanAppend(a: seq<byte>, b: seq<byte>)
    ensures Scan(a).Broken? ==> Scan(a + b).Broken?
    ensures Scan(a).Scanned? ==> Scan(a + b) == Before(Scan(a).frames, Scan(Scan(a).tail + b))
    decreases |a|
  {
    if |a| >= 2 && FromBe16(a) != 0 && |a| >= FromBe16(a) + 2 {
      var n := FromBe16(a);
      ScanAppend(a[n + 2..], b);
      ScanFirst(a, []);
      ScanFirst(a, b);
      assert a + [] == a && a[n + 2..] + [] == a[n + 2..];
      if Scan(a).Scanned? {
        var later := Scan(a[n + 2..]);
        BeforeBefore([a[..n + 2]], later.frames, Scan(later.tail + b));
      }
    } else if |a| >= 2 && FromBe16(a) == 0 {
      assert FromBe16(a + b) == 0;
    }
  }

  /** A listener: pushes every chunk and keeps the frames until one push fails. */
  function PushAll(d: DecoderState, chunks: seq<seq<byte>>): (DecoderState, Result<seq<seq<byte>>, CloseReason>)
    decreases |chunks|
  {
    if chunks == [] then (d, Ok([]))
    else
      var (d1, first) := PushSpec(d, chunks[0]);
      if first.Err? then (d1, first)
      else
        var (d2, more) := PushAll(d1, chunks[1..]);
        (d2, if more.Err? then more else Ok(first.value + more.value))
  }

  /** How the stream is cut into pushes is invisible: the pushes yield the
      frames of the whole stream, and fail exactly when the whole stream is broken. */
  lemma {:induction false} CuttingIsInvisible(tail: seq<byte>, chunks: seq<seq<byte>>)
    requires Scan(tail) == Scanned([], tail)
    ensures PushAll(Live(tail), chunks) ==
            match Scan(tail + Concat(chunks))
            case Broken => (Failed, Err(Malformed))
            case Scanned(frames, rest) => (Live(rest), Ok(frames))
    decreases |chunks|
  {
    if chunks == [] {
      assert tail + [] == tail;
    } else {
      var whole := tail + Concat(chunks);
      assert whole == (tail + chunks[0]) + Concat(chunks[1..]);
      ScanAppend(tail + chunks[0], Concat(chunks[1..]));
      var now := Scan(tail + chunks[0]);
      if now.Scanned? {
        ScanIsMaximal(tail + chunks[0]);
        CuttingIsInvisible(now.tail, chunks[1..]);
      }
    }
  }

  lemma {:induction false} ScanOfEnvelopes(frames: seq<seq<byte>>)
    requires forall f | f in frames :: IsEnvelope(f)
    ensures Scan(Concat(frames)) == Scanned(frames, [])
    decreases |frames|
  {
    if frames != [] {
      ScanOfEnvelopes(frames[1..]);
      var stream := Concat(frames);
      assert IsEnvelope(frames[0]);
      assert FromBe16(stream) == FromBe16(frames[0]);
      assert stream[..|frames[0]|] == frames[0];
      assert stream[|frames[0]|..] == Concat(frames[1..]);
      assert [frames[0]] + frames[1..] == frames;
    }
  }

  /** Whatever way the bytes of a list of envelopes arrive, exactly those
      envelopes come out, in order, and nothing is owed afterwards. */
  lemma EnvelopesSurviveCutting(frames: seq<seq<byte>>, chunks: seq<seq<byte>>)
    requires forall f | f in frames :: IsEnvelope(f)
    requires Concat(chunks) == Concat(frames)
    ensures PushAll(Live([]), chunks) == (Live([]), Ok(frames))
  {
    ScanOfEnvelopes(frames);
    CuttingIsInvisible([], chunks);
    assert [] + Concat(chunks) == Concat(frames);
  }
}
