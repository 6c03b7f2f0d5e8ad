/** The record layer: one header and up to 65507 bytes per sealed frame,
    fragmentation of messages into records and their reassembly. */
module Records {
  import opened Common
  import opened Terms
  import opened Framing
  import Payloads

  datatype RecordKind = Application | Finished | Heartbeat | Close

  function KindToWire(kind: RecordKind): byte {
    match kind
    case Application => 1
    case Finished => 2
    case Heartbeat => 3
    case Close => 4
  }

  function KindFromWire(value: byte): Result<RecordKind, CloseReason> {
    if value == 1 then Ok(Application)
    else if value == 2 then Ok(Finished)
    else if value == 3 then Ok(Heartbeat)
    else if value == 4 then Ok(Close)
    else Err(Malformed)
  }

  datatype Record = Record(kind: RecordKind, start: bool, end: bool, totalLen: u32, offset: u32, data: seq<byte>)

  function Flags(start: bool, end: bool): byte {
    (if start then 1 else 0) + (if end then 2 else 0)
  }

  function EncodeRecord(r: Record): Result<seq<byte>, CloseReason> {
    if |r.data| > RECORD_DATA_MAX then Err(Oversize)
    else Ok([KindToWire(r.kind), Flags(r.start, r.end), 0, 0] + Be32(r.totalLen) + Be32(r.offset) + r.data)
  }

  function DecodeRecord(bytes: seq<byte>): Result<Record, CloseReason> {
    if |bytes| < RECORD_HEADER_LEN then Err(Malformed)
    else if |bytes| - RECORD_HEADER_LEN > RECORD_DATA_MAX then Err(Oversize)
    else if bytes[1] > 3 || bytes[2] != 0 || bytes[3] != 0 then Err(SequenceViolation)
    else
      var kind :- KindFromWire(bytes[0]);
      Ok(Record(kind, bytes[1] % 2 != 0, bytes[1] / 2 != 0,
                FromBe32(bytes[4..8]), FromBe32(bytes[8..12]), bytes[12..]))
  }

  /** Decoding is the exact inverse of encoding. */
  lemma RecordExact(bytes: seq<byte>, r: Record)
    ensures DecodeRecord(bytes) == Ok(r) <==> EncodeRecord(r) == Ok(bytes)
  {
    if EncodeRecord(r) == Ok(bytes) {
      Be32Inverse(r.totalLen, []);
      Be32Inverse(r.offset, []);
      assert bytes[4..8] == Be32(r.totalLen) == Be32(r.totalLen) + [];
      assert bytes[8..12] == Be32(r.offset) == Be32(r.offset) + [];
      assert bytes[12..] == r.data;
    }
    if DecodeRecord(bytes) == Ok(r) {
      FromBe32Inverse(bytes[4..8]);
      FromBe32Inverse(bytes[8..12]);
      assert bytes == [KindToWire(r.kind), Flags(r.start, r.end), 0, 0] + bytes[4..8] + bytes[8..12] + bytes[12..];
    }
  }

  lemma DecodedFits(bytes: seq<byte>, r: Record)
    requires DecodeRecord(bytes) == Ok(r)
    ensures |r.data| <= RECORD_DATA_MAX
    ensures |bytes| == RECORD_HEADER_LEN + |r.data|
  {
  }

  /** The plaintext of a record that fits. */
  function Plain(r: Record): seq<byte>
    requires |r.data| <= RECORD_DATA_MAX
  {
    EncodeRecord(r).value
  }

  lemma PlainFacts(r: Record)
    requires |r.data| <= RECORD_DATA_MAX
    ensures DecodeRecord(Plain(r)) == Ok(r)
    ensures |Plain(r)| == RECORD_HEADER_LEN + |r.data|
  {
    RecordExact(Plain(r), r);
    Be32Inverse(r.totalLen, []);
    Be32Inverse(r.offset, []);
  }

  function CompleteRecord(kind: RecordKind, payload: seq<byte>): Result<Record, CloseReason> {
    if |payload| >= 0x1_0000_0000 then Err(Oversize)
    else Ok(Record(kind, true, true, |payload|, 0, payload))
  }

  function ValidateComplete(r: Record, kind: RecordKind): Result<(), CloseReason> {
    if r.kind != kind || !r.start || !r.end || r.offset != 0 then Err(SequenceViolation)
    else if r.totalLen != |r.data| then Err(Malformed)
    else Ok(())
  }

  // ---- Fragmentation ---------------------------------------------------

  predicate Sendable(payload: seq<byte>) {
    0 < |payload| < 0x1_0000_0000
  }

  function ChunkEnd(payload: seq<byte>, offset: nat): nat {
    if offset + RECORD_DATA_MAX < |payload| then offset + RECORD_DATA_MAX else |payload|
  }

  /** The record that carries the payload from `offset` on. */
  function FragmentAt(kind: RecordKind, payload: seq<byte>, offset: nat): Record
    requires Sendable(payload) && offset < |payload|
  {
    var end := ChunkEnd(payload, offset);
    Record(kind, offset == 0, end == |payload|, if offset == 0 then |payload| else 0, offset, payload[offset..end])
  }

  predicate Fitting(rs: seq<Record>) {
    forall i :: 0 <= i < |rs| ==> |rs[i].data| <= RECORD_DATA_MAX
  }

  function FragmentsFrom(kind: RecordKind, payload: seq<byte>, offset: nat): (rs: seq<Record>)
    requires Sendable(payload) && offset <= |payload|
    ensures Fitting(rs)
    decreases |payload| - offset
  {
    if offset == |payload| then []
    else [FragmentAt(kind, payload, offset)] + FragmentsFrom(kind, payload, ChunkEnd(payload, offset))
  }

  function Plains(rs: seq<Record>): (plains: seq<seq<byte>>)
    requires Fitting(rs)
    ensures |plains| == |rs|
  {
    seq(|rs|, i requires 0 <= i < |rs| => Plain(rs[i]))
  }

  function FragmentRecords(kind: RecordKind, payload: seq<byte>): Result<seq<seq<byte>>, CloseReason> {
    if !Sendable(payload) then Err(Oversize) else Ok(Plains(FragmentsFrom(kind, payload, 0)))
  }

  function Volume(parts: seq<seq<byte>>): nat {
    if parts == [] then 0 else |parts[0]| + Volume(parts[1..])
  }

  // ---- Reassembly ------------------------------------------------------

  datatype Partial = Partial(kind: RecordKind, total: nat, data: seq<byte>)

  datatype Reassembly = Reassembly(cap: nat, active: Option<Partial>, records: nat, bytes: nat, failed: bool)

  datatype Message = Message(kind: RecordKind, payload: seq<byte>)

  function NewReassembly(cap: nat): Reassembly {
    Reassembly(cap, None, 0, 0, false)
  }

  function Refuse(s: Reassembly, reason: CloseReason): (Reassembly, Result<Option<Message>, CloseReason>) {
    (s.(active := None, failed := true), Err(reason))
  }

  function ValidateControl(kind: RecordKind, bytes: seq<byte>): Result<(), CloseReason> {
    if kind.Close? then
      var _ :- Payloads.ParseClose(bytes);
      Ok(())
    else Ok(())
  }

  function Counted(s: Reassembly, r: Record): Reassembly {
    s.(records := s.records + 1, bytes := s.bytes + RECORD_HEADER_LEN + |r.data|)
  }

  predicate OverLimit(s: Reassembly) {
    s.records >= RECORD_LIMIT || s.bytes >= BYTE_LIMIT
  }

  /** A finished message, unless it is a control message that does not parse. */
  function Deliver(s: Reassembly, kind: RecordKind, data: seq<byte>):
      (Reassembly, Result<Option<Message>, CloseReason>) {
    match ValidateControl(kind, data)
    case Err(reason) => Refuse(s, reason)
    case Ok(_) => (s.(active := None), Ok(Some(Message(kind, data))))
  }

  function StartSpec(s: Reassembly, r: Record): (Reassembly, Result<Option<Message>, CloseReason>) {
    if r.totalLen > s.cap then Refuse(s, Oversize)
    else if s.active.Some? || r.offset != 0 then Refuse(s, SequenceViolation)
    else if (r.totalLen == 0 && !r.end) || |r.data| > r.totalLen then Refuse(s, Malformed)
    else if !r.end then (s.(active := Some(Partial(r.kind, r.totalLen, r.data))), Ok(None))
    else if |r.data| != r.totalLen then Refuse(s, Malformed)
    else Deliver(s, r.kind, r.data)
  }

  function ContinueSpec(s: Reassembly, p: Partial, r: Record): (Reassembly, Result<Option<Message>, CloseReason>) {
    var data := p.data + r.data;
    if p.kind != r.kind || r.totalLen != 0 || r.offset != |p.data| then Refuse(s, SequenceViolation)
    else if |data| > p.total then Refuse(s, Malformed)
    else if !r.end then (s.(active := Some(p.(data := data))), Ok(None))
    else if |data| != p.total then Refuse(s, Malformed)
    else Deliver(s, p.kind, data)
  }

  function AcceptSpec(s: Reassembly, r: Record): (Reassembly, Result<Option<Message>, CloseReason>) {
    if s.failed then (s, Err(SequenceViolation))
    else
      var c := Counted(s, r);
      if OverLimit(c) then Refuse(c, RecordLimit)
      else if r.start then StartSpec(c, r)
      else if c.active.None? then Refuse(c, SequenceViolation)
      else ContinueSpec(c, c.active.value, r)
  }

  class RecordReassembler {
    var cap: nat
    var active: Option<Partial>
    var records: nat
    var bytes: nat
    var failed: bool

    ghost function View(): Reassembly
      reads this
    {
      Reassembly(cap, active, records, bytes, failed)
    }

    constructor (maxMessageBytes: nat)
      ensures View() == NewReassembly(maxMessageBytes)
    {
      cap, active, records, bytes, failed := maxMessageBytes, None, 0, 0, false;
    }

    method Clear()
      modifies this`active
      ensures active == None
    {
      active := None;
    }

    method Accept(r: Record) returns (result: Result<Option<Message>, CloseReason>)
      modifies this
      ensures (View(), result) == AcceptSpec(old(View()), r)
    {
      if failed {
        return Err(SequenceViolation);
      }
      result := TryAccept(r);
      if result.Err? {
        Clear();
        failed := true;
      }
    }

    /** The body of `Accept` before the failure bookkeeping. */
    method TryAccept(r: Record) returns (result: Result<Option<Message>, CloseReason>)
      requires !failed
      modifies this
      ensures !failed
      ensures result.Ok? ==> (View(), result) == AcceptSpec(old(View()), r)
      ensures result.Err? ==> (View().(active := None, failed := true), result) == AcceptSpec(old(View()), r)
    {
      records := records + 1;
      bytes := bytes + RECORD_HEADER_LEN + |r.data|;
      if records >= RECORD_LIMIT || bytes >= BYTE_LIMIT {
        Clear();
        return Err(RecordLimit);
      }
      if r.start {
        if r.totalLen > cap {
          return Err(Oversize);
        }
        if active.Some? || r.offset != 0 {
          return Err(SequenceViolation);
        }
        if r.totalLen == 0 && !r.end {
          return Err(Malformed);
        }
        if |r.data| > r.totalLen {
          return Err(Malformed);
        }
        if r.end {
          if |r.data| != r.totalLen {
            return Err(Malformed);
          }
          var control := ValidateControl(r.kind, r.data);
          if control.Err? {
            return Err(control.error);
          }
          return Ok(Some(Message(r.kind, r.data)));
        }
        active := Some(Partial(r.kind, r.totalLen, r.data));
        return Ok(None);
      }
      if active.None? {
        return Err(SequenceViolation);
      }
      var partial := active.value;
      active := None;
      if partial.kind != r.kind || r.totalLen != 0 || r.offset != |partial.data| {
        return Err(SequenceViolation);
      }
      if |partial.data| + |r.data| > partial.total {
        return Err(Malformed);
      }
      var assembled := partial.data + r.data;
      if r.end {
        if |assembled| != partial.total {
          return Err(Malformed);
        }
        var control := ValidateControl(partial.kind, assembled);
        if control.Err? {
          return Err(control.error);
        }
        return Ok(Some(Message(partial.kind, assembled)));
      }
      active := Some(Partial(partial.kind, partial.total, assembled));
      return Ok(None);
    }

    method Eof() returns (r: Result<(), CloseReason>)
      modifies this
      ensures old(failed) ==> r == Err(SequenceViolation) && View() == old(View())
      ensures !old(failed) && old(active).Some? ==>
                r == Err(Malformed) && View() == old(View()).(active := None, failed := true)
      ensures !old(failed) && old(active).None? ==> r == Ok(()) && View() == old(View())
    {
      if failed {
        return Err(SequenceViolation);
      }
      if active.Some? {
        Clear();
        failed := true;
        return Err(Malformed);
      }
      r := Ok(());
    }

    method SetCap(newCap: nat) returns (r: Result<(), CloseReason>)
      modifies this`cap
      ensures r == if !failed && newCap > 0 && active.None? then Ok(()) else Err(SequenceViolation)
      ensures cap == if r.Ok? then newCap else old(cap)
    {
      if failed || newCap == 0 || active.Some? {
        return Err(SequenceViolation);
      }
      cap := newCap;
      r := Ok(());
    }
  }

  /** Where a reassembly of `payload` stands once its first `offset` bytes are in. */
  function Progress(kind: RecordKind, payload: seq<byte>, offset: nat): Option<Partial>
    requires offset <= |payload|
  {
    if offset == 0 then None else Some(Partial(kind, |payload|, payload[..offset]))
  }

  /** One honest fragment advances the reassembly by exactly its bytes, and
      the last one delivers the payload. */
  lemma FragmentAdvances(s: Reassembly, kind: RecordKind, payload: seq<byte>, offset: nat)
    requires Sendable(payload) && offset < |payload| <= s.cap
    requires !s.failed && s.active == Progress(kind, payload, offset)
    requires !OverLimit(Counted(s, FragmentAt(kind, payload, offset)))
    requires kind.Close? ==> Payloads.ParseClose(payload).Ok?
    ensures var r := FragmentAt(kind, payload, offset);
            var end := ChunkEnd(payload, offset);
            AcceptSpec(s, r) ==
            if end == |payload| then (Counted(s, r).(active := None), Ok(Some(Message(kind, payload))))
            else (Counted(s, r).(active := Progress(kind, payload, end)), Ok(None))
  {
    hide StartSpec, ContinueSpec, OverLimit;
    var c := Counted(s, FragmentAt(kind, payload, offset));
    if offset == 0 {
      FirstFragment(c, kind, payload);
    } else {
      LaterFragment(c, kind, payload, offset);
    }
  }

  lemma DeliversMessage(s: Reassembly, kind: RecordKind, payload: seq<byte>)
    requires kind.Close? ==> Payloads.ParseClose(payload).Ok?
    ensures Deliver(s, kind, payload) == (s.(active := None), Ok(Some(Message(kind, payload))))
  {
    hide Payloads.ParseClose;
  }

  lemma FirstFragment(c: Reassembly, kind: RecordKind, payload: seq<byte>)
    requires Sendable(payload) && |payload| <= c.cap && c.active.None?
    requires kind.Close? ==> Payloads.ParseClose(payload).Ok?
    ensures var end := ChunkEnd(payload, 0);
            StartSpec(c, FragmentAt(kind, payload, 0)) ==
            if end == |payload| then (c.(active := None), Ok(Some(Message(kind, payload))))
            else (c.(active := Progress(kind, payload, end)), Ok(None))
  {
    hide Payloads.ParseClose, Deliver;
    var end := ChunkEnd(payload, 0);
    DeliversMessage(c, kind, payload);
    assert payload[0..end] == payload[..end];
    assert payload[..|payload|] == payload;
  }

  lemma LaterFragment(c: Reassembly, kind: RecordKind, payload: seq<byte>, offset: nat)
    requires Sendable(payload) && 0 < offset < |payload|
    requires kind.Close? ==> Payloads.ParseClose(payload).Ok?
    ensures var end := ChunkEnd(payload, offset);
            ContinueSpec(c, Progress(kind, payload, offset).value, FragmentAt(kind, payload, offset)) ==
            if end == |payload| then (c.(active := None), Ok(Some(Message(kind, payload))))
            else (c.(active := Progress(kind, payload, end)), Ok(None))
  {
    hide Payloads.ParseClose, Deliver;
    var end := ChunkEnd(payload, offset);
    DeliversMessage(c, kind, payload);
    assert payload[..offset] + payload[offset..end] == payload[..end];
    assert payload[..|payload|] == payload;
  }

  /** Feeds records in order and keeps what each returns until one fails. */
  function AcceptAll(s: Reassembly, rs: seq<Record>): (Reassembly, Result<seq<Option<Message>>, CloseReason>)
    decreases |rs|
  {
    if rs == [] then (s, Ok([]))
    else
      var (s1, first) := AcceptSpec(s, rs[0]);
      if first.Err? then (s1, Err(first.error))
      else
        var (s2, more) := AcceptAll(s1, rs[1..]);
        (s2, if more.Err? then Err(more.error) else Ok([first.value] + more.value))
  }

  lemma FragmentsHead(kind: RecordKind, payload: seq<byte>, offset: nat)
    requires Sendable(payload) && offset < |payload|
    ensures var rs := FragmentsFrom(kind, payload, offset);
            var rest := FragmentsFrom(kind, payload, ChunkEnd(payload, offset));
            var r := FragmentAt(kind, payload, offset);
            && rs == [r] + rest
            && Volume(Plains(rs)) == RECORD_HEADER_LEN + |r.data| + Volume(Plains(rest))
  {
    var rs, rest := FragmentsFrom(kind, payload, offset), FragmentsFrom(kind, payload, ChunkEnd(payload, offset));
    assert rs[1..] == rest;
    assert Plains(rs)[1..] == Plains(rest);
    PlainFacts(rs[0]);
  }

  lemma AcceptAllStep(s: Reassembly, r: Record, rest: seq<Record>, s1: Reassembly, out: Option<Message>)
    requires AcceptSpec(s, r) == (s1, Ok(out))
    requires AcceptAll(s1, rest).1.Ok?
    ensures AcceptAll(s, [r] + rest) == (AcceptAll(s1, rest).0, Ok([out] + AcceptAll(s1, rest).1.value))
  {
    assert ([r] + rest)[1..] == rest;
  }

  /** What feeding `n` fragments of one message returns. */
  function LastOnly(n: nat, message: Message): seq<Option<Message>>
    requires n > 0
  {
    if n == 1 then [Some(message)] else [None] + LastOnly(n - 1, message)
  }

  /** All fragments of a message: nothing until the last, then the message. */
  lemma {:induction false} FragmentsReassemble(s: Reassembly, kind: RecordKind, payload: seq<byte>, offset: nat)
    requires Sendable(payload) && offset < |payload| <= s.cap
    requires !s.failed && s.active == Progress(kind, payload, offset)
    requires kind.Close? ==> Payloads.ParseClose(payload).Ok?
    requires s.records + |FragmentsFrom(kind, payload, offset)| < RECORD_LIMIT
    requires s.bytes + Volume(Plains(FragmentsFrom(kind, payload, offset))) < BYTE_LIMIT
    ensures var rs := FragmentsFrom(kind, payload, offset);
            && AcceptAll(s, rs).0 ==
               s.(active := None, records := s.records + |rs|, bytes := s.bytes + Volume(Plains(rs)))
            && AcceptAll(s, rs).1 == Ok(LastOnly(|rs|, Message(kind, payload)))
    decreases |payload| - offset
  {
    hide AcceptSpec, AcceptAll, FragmentAt, FragmentsFrom, Plains, Volume, Payloads.ParseClose;
    var r, end := FragmentAt(kind, payload, offset), ChunkEnd(payload, offset);
    var rest := FragmentsFrom(kind, payload, end);
    FragmentsHead(kind, payload, offset);
    FragmentAdvances(s, kind, payload, offset);
    var (s1, first) := AcceptSpec(s, r);
    if end < |payload| {
      FragmentsHead(kind, payload, end);
      FragmentsReassemble(s1, kind, payload, end);
    } else {
      NoMoreFragments(s1, kind, payload);
    }
    AcceptAllStep(s, r, rest, s1, first.value);
    assert [first.value] + AcceptAll(s1, rest).1.value == LastOnly(1 + |rest|, Message(kind, payload));
  }

  lemma NoMoreFragments(s: Reassembly, kind: RecordKind, payload: seq<byte>)
    requires Sendable(payload)
    ensures FragmentsFrom(kind, payload, |payload|) == []
    ensures Volume(Plains([])) == 0
    ensures AcceptAll(s, []) == (s, Ok([]))
  {
  }

  function Pending(s: Reassembly): seq<byte> {
    if s.active.Some? then s.active.value.data else []
  }

  function Payload(out: Option<Message>): seq<byte> {
    if out.Some? then out.value.payload else []
  }

  function DataOf(rs: seq<Record>): seq<byte> {
    if rs == [] then [] else rs[0].data + DataOf(rs[1..])
  }

  function Delivered(outs: seq<Option<Message>>): seq<byte> {
    if outs == [] then [] else Payload(outs[0]) + Delivered(outs[1..])
  }

  /** From any sender whatsoever: the messages delivered, followed by the
      bytes still being assembled, are the record data in arrival order. */
  lemma {:induction false} ReassemblyConserves(s: Reassembly, rs: seq<Record>)
    requires AcceptAll(s, rs).1.Ok?
    ensures Pending(s) + DataOf(rs) == Delivered(AcceptAll(s, rs).1.value) + Pending(AcceptAll(s, rs).0)
    decreases |rs|
  {
    if rs != [] {
      var (s1, first) := AcceptSpec(s, rs[0]);
      var (s2, more) := AcceptAll(s1, rs[1..]);
      ReassemblyConserves(s1, rs[1..]);
      assert Pending(s) + rs[0].data == Payload(first.value) + Pending(s1);
      var outs := [first.value] + more.value;
      assert outs[1..] == more.value;
      Assoc(Pending(s), rs[0].data, DataOf(rs[1..]));
      Assoc(Payload(first.value), Pending(s1), DataOf(rs[1..]));
      Assoc(Payload(first.value), Delivered(more.value), Pending(s2));
    }
  }

  // ---- From payload to payload over a byte stream ----------------------

  /** A sealing function numbered by nonce and its inverse. */
  datatype Aead = Aead(seal: (nat, seq<byte>) -> seq<byte>, open: (nat, seq<byte>) -> Option<seq<byte>>)

  ghost predicate Ideal(a: Aead) {
    forall n: nat, p: seq<byte> :: |a.seal(n, p)| == |p| + TAG_LEN && a.open(n, a.seal(n, p)) == Some(p)
  }

  function SealFrames(a: Aead, nonce: nat, plains: seq<seq<byte>>): Result<seq<seq<byte>>, CloseReason>
    decreases |plains|
  {
    if plains == [] then Ok([])
    else
      var frame :- EncodeOuter(a.seal(nonce, plains[0]));
      var more :- SealFrames(a, nonce + 1, plains[1..]);
      Ok([frame] + more)
  }

  /** Opens one frame and reads its record. */
  function OpenFrame(a: Aead, nonce: nat, frame: seq<byte>): Result<Record, CloseReason> {
    var sealed :- OneOuter(frame);
    match a.open(nonce, sealed)
    case None => Err(AuthenticationFailed)
    case Some(plain) => DecodeRecord(plain)
  }

  function OpenFrames(a: Aead, nonce: nat, frames: seq<seq<byte>>): Result<seq<Record>, CloseReason>
    decreases |frames|
  {
    if frames == [] then Ok([])
    else
      var r :- OpenFrame(a, nonce, frames[0]);
      var more :- OpenFrames(a, nonce + 1, frames[1..]);
      Ok([r] + more)
  }

  /** Sealing never exceeds the outer limit, and opening gives the records back. */
  lemma {:induction false} FramesOpen(a: Aead, nonce: nat, rs: seq<Record>)
    requires Ideal(a)
    requires Fitting(rs)
    ensures SealFrames(a, nonce, Plains(rs)).Ok?
    ensures forall f | f in SealFrames(a, nonce, Plains(rs)).value :: IsEnvelope(f)
    ensures OpenFrames(a, nonce, SealFrames(a, nonce, Plains(rs)).value) == Ok(rs)
    decreases |rs|
  {
    if rs != [] {
      hide SealFrames, OpenFrames, Plain, EncodeRecord, DecodeRecord;
      assert Plains(rs)[0] == Plain(rs[0]) && Plains(rs)[1..] == Plains(rs[1..]);
      FramesOpen(a, nonce + 1, rs[1..]);
      FirstFrameOpens(a, nonce, rs[0], Plains(rs[1..]), rs[1..]);
      assert [Plain(rs[0])] + Plains(rs[1..]) == Plains(rs);
      assert [rs[0]] + rs[1..] == rs;
    }
  }

  lemma FirstFrameOpens(a: Aead, nonce: nat, r: Record, plains: seq<seq<byte>>, rest: seq<Record>)
    requires Ideal(a) && |r.data| <= RECORD_DATA_MAX && SealFrames(a, nonce + 1, plains).Ok?
    requires forall f | f in SealFrames(a, nonce + 1, plains).value :: IsEnvelope(f)
    requires OpenFrames(a, nonce + 1, SealFrames(a, nonce + 1, plains).value) == Ok(rest)
    ensures var all := SealFrames(a, nonce, [Plain(r)] + plains);
            && all.Ok? && (forall f | f in all.value :: IsEnvelope(f))
            && OpenFrames(a, nonce, all.value) == Ok([r] + rest)
  {
    PlainFacts(r);
    var sealed := a.seal(nonce, Plain(r));
    OuterIsExact(sealed, EncodeOuter(sealed).value);
    var more := SealFrames(a, nonce + 1, plains).value;
    assert ([Plain(r)] + plains)[1..] == plains;
    assert ([EncodeOuter(sealed).value] + more)[1..] == more;
  }

  /** For every payload within the cap and every way its frames are cut on
      the wire, the receiving side delivers that payload, once, at the end. */
  lemma PayloadSurvivesTheWire(a: Aead, nonce: nat, payload: seq<byte>, frames: seq<seq<byte>>,
                               chunks: seq<seq<byte>>, s: Reassembly)
    requires Ideal(a) && Sendable(payload) && |payload| <= s.cap
    requires SealFrames(a, nonce, FragmentRecords(Application, payload).value) == Ok(frames)
    requires Concat(chunks) == Concat(frames)
    requires !s.failed && s.active.None?
    requires s.records + |frames| < RECORD_LIMIT
    requires s.bytes + Volume(FragmentRecords(Application, payload).value) < BYTE_LIMIT
    ensures PushAll(Live([]), chunks) == (Live([]), Ok(frames))
    ensures OpenFrames(a, nonce, frames).Ok? && frames != []
    ensures AcceptAll(s, OpenFrames(a, nonce, frames).value).1 ==
            Ok(LastOnly(|frames|, Message(Application, payload)))
  {
    var rs := FragmentsFrom(Application, payload, 0);
    FramesOpen(a, nonce, rs);
    SealFramesLength(a, nonce, Plains(rs));
    EnvelopesSurviveCutting(frames, chunks);
    FragmentsReassemble(s, Application, payload, 0);
  }

  lemma {:induction false} SealFramesLength(a: Aead, nonce: nat, plains: seq<seq<byte>>)
    requires SealFrames(a, nonce, plains).Ok?
    ensures |SealFrames(a, nonce, plains).value| == |plains|
    decreases |plains|
  {
    if plains != [] {
      SealFramesLength(a, nonce + 1, plains[1..]);
    }
  }
}
