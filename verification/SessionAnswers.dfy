/** What every call of a session answers, whatever the state and whatever frame the
    peer sends: exactly when it succeeds, and with which reason it fails. */
module SessionAnswers {
  import opened Common
  import opened Terms
  import opened Payloads
  import opened Records
  import opened Noise
  import opened Session
  import SessionRuns

  /** The reason a call fails with, if it does. */
  function ReasonOf(e: Effect): Option<CloseReason> {
    if e.failure.Some? then Some(e.failure.value.reason) else None
  }

  // ---- The handshake ---------------------------------------------------

  /** The first message is written once, by the side that begins. */
  lemma HelloAnswers(c: Core)
    requires c.handshake.Some? ==> c.handshake.value.initiator
    ensures ReasonOf(Do(Target, c, WriteHello))
         == if c.handshake.None? then Some(SequenceViolation)
            else if c.handshake.value.step == 0 then None
            else Some(AuthenticationFailed)
  {
  }

  /** The peer's message of this very handshake, and with nothing in it. */
  predicate Greeting(role: Role, h: Handshake, frame: Frame) {
    if role.Target? then h.initiator && h.step == 1 && frame.Message2? && frame.ctx == h.ctx && frame.payload == []
    else !h.initiator && h.step == 0 && frame.Message1? && frame.ctx == h.ctx && frame.payload == []
  }

  /** The peer's handshake message is taken exactly if it is the one awaited. */
  lemma GreetingAnswers(role: Role, c: Core, frame: Frame, hash: Bytes32)
    ensures ReasonOf(Do(role, c, ReadHello(frame, hash)))
         == if c.handshake.None? then Some(SequenceViolation)
            else if Greeting(role, c.handshake.value, frame) then None
            else Some(AuthenticationFailed)
  {
    hide TargetReadM2, BrokerAnswerM1, Greeting;
    if role.Target? {
      TargetGreeting(c, frame);
    } else {
      BrokerGreeting(c, frame, hash);
    }
  }

  lemma TargetGreeting(c: Core, frame: Frame)
    ensures TargetReadM2(c, frame).result
         == if c.handshake.None? then Err(Plainly(SequenceViolation))
            else if Greeting(Target, c.handshake.value, frame) then Ok(())
            else Err(Plainly(AuthenticationFailed))
  {
  }

  lemma BrokerGreeting(c: Core, frame: Frame, hash: Bytes32)
    ensures BrokerAnswerM1(c, frame, hash).result
         == if c.handshake.None? then Err(Plainly(SequenceViolation))
            else if Greeting(Broker, c.handshake.value, frame) then Ok(Message2(c.handshake.value.ctx, [], hash))
            else Err(Plainly(AuthenticationFailed))
  {
  }

  lemma BindingAnswers(role: Role, c: Core, generation: u64, epoch: u64)
    ensures var e := Do(role, c, CheckBinding(generation, epoch));
            if generation == c.binding.generation && epoch == c.binding.epoch then e == Effect(c, [], None, None)
            else ReasonOf(e) == Some(BindingMismatch) && e.core.closed && e.frames == []
  {
  }

  /** A core is made for every binding with a generation and an epoch in range. */
  lemma NewAnswers(binding: SessionBinding, psk: Bytes32)
    ensures var valid := 1 <= binding.generation < 0x20_0000_0000_0000 && 1 <= binding.epoch < 0x20_0000_0000_0000;
            && (NewTarget(binding, psk).Ok? <==> valid) && (NewBroker(binding, psk).Ok? <==> valid)
            && (!valid ==> NewTarget(binding, psk) == NewBroker(binding, psk) == Err(BindingMismatch))
  {
  }

  // ---- Writing ---------------------------------------------------------

  lemma LimitReason(c: Core, handoff: Handoff)
    ensures AtLimit(c, handoff).failure.reason == RecordLimit && AtLimit(c, handoff).failure.peerClose.None?
  {
    hide Plain, CloseRecord;
  }

  /** Enough is left of the quotas, beside a last Close. */
  predicate Affords(c: Core, records: nat, bytes: nat) {
    c.sentRecords + records + 1 < 0x1_0000_0000 && c.sentPlaintext + bytes + 19 < 0x100_0000_0000
  }

  lemma FinishedAnswers(role: Role, c: Core)
    ensures var size := if c.sessionHash.None? then 0
                        else 12 + |FinishedPayload(c.binding, if role.Target? then 0 else 1, c.sessionHash.value)|;
            ReasonOf(Do(role, c, SendFinished))
            == if c.sentFinished || c.sessionHash.None? || (role.Broker? && !c.gotFinished)
               then Some(SequenceViolation)
               else if !Affords(c, 1, size) then Some(RecordLimit)
               else if !Usable(c) then Some(SequenceViolation)
               else None
  {
    hide Plain, FinishedPayload, AtLimit;
    LimitReason(c, c.handoff);
    if c.sessionHash.Some? {
      FinishedLength(c.binding, if role.Target? then 0 else 1, c.sessionHash.value);
    }
  }

  lemma CloseAnswers(role: Role, c: Core, reason: CloseReason, handoff: Handoff)
    ensures ReasonOf(Do(role, c, SendClose(reason, handoff)))
         == if c.sentRecords + 1 >= 0x1_0000_0000 || c.sentPlaintext + 19 >= 0x100_0000_0000 then Some(RecordLimit)
            else if !Usable(c) then Some(SequenceViolation)
            else None
  {
    hide Plain, CloseRecord, AtLimit;
    LimitReason(c, Closing(reason, ConservativeMax(c.handoff, handoff)).handoff);
  }

  /** The side may speak: it has the turn, in a session that has been opened -- or, for
      the opening, has not. */
  predicate MaySpeak(role: Role, c: Core, payload: seq<byte>, opening: bool) {
    && c.sentFinished && c.gotFinished && !c.peerTurn && payload != []
    && (if role.Broker? && opening then !c.firstApplication else c.firstApplication)
  }

  /** The longest message: 64 KiB to open with, 16 MiB to ask, 64 MiB to answer. */
  function Longest(role: Role, opening: bool): nat {
    if role.Target? then 0x400_0000 else if opening then 0x1_0000 else 0x100_0000
  }

  function Size(payload: seq<byte>): nat
    requires Sendable(payload)
  {
    Volume(Plains(FragmentsFrom(Application, payload, 0)))
  }

  /** A message is sent exactly if the side may speak, the message is not too long, and
      the quotas allow it beside a last Close. */
  lemma MessageAnswers(role: Role, c: Core, payload: seq<byte>, opening: bool)
    ensures ReasonOf(Do(role, c, Send(payload, opening)))
         == if role.Broker? && opening && (c.firstApplication || payload == []) then Some(SequenceViolation)
            else if role.Broker? && opening && |payload| > Longest(role, opening) then Some(Oversize)
            else if !MaySpeak(role, c, payload, opening) then Some(SequenceViolation)
            else if |payload| > Longest(role, opening) then Some(Oversize)
            else if !Affords(c, |FragmentsFrom(Application, payload, 0)|, Size(payload)) then Some(RecordLimit)
            else if !Usable(c) then Some(SequenceViolation)
            else None
  {
    hide Plain, AtLimit, Volume, FragmentsFrom, Plains;
    LimitReason(c, c.handoff);
    LimitReason(c.(firstApplication := true), c.handoff);
  }

  // ---- Reading ---------------------------------------------------------

  /** Why a frame cannot be opened, if it cannot: there is no channel any more, it is not
      the next frame of this channel, or it reaches a quota. */
  function Closed(c: Core, frame: Frame): Option<CloseReason> {
    if !Usable(c) then Some(SequenceViolation)
    else if !Opens(c.transport.value, frame) then Some(AuthenticationFailed)
    else if c.receivedRecords + 1 >= 0x1_0000_0000 || c.receivedPlaintext + |frame.plaintext| >= 0x100_0000_0000
    then Some(RecordLimit)
    else None
  }

  /** After any run of calls, with frames from anybody: the only frame that still opens is
      the one the other side sealed next for this transcript, so none opens twice, out of
      order, or coming back from the other direction. */
  lemma OnlyNextOpens(role: Role, c: Core, calls: seq<Call>, frame: Frame)
    requires SessionRuns.Sound(role, c)
    requires Closed(SessionRuns.Run(role, c, calls), frame).None?
    ensures var now := SessionRuns.Run(role, c, calls);
            && frame.Sealed? && Some(frame.key) == now.sessionHash && frame.fromInitiator == role.Broker?
            && frame.nonce == now.receivedRecords
  {
    hide SessionRuns.Run;
    SessionRuns.RunKeepsSound(role, c, calls);
  }

  /** The frame can be opened and holds this record. */
  predicate Brings(c: Core, frame: Frame, r: Record) {
    Closed(c, frame).None? && EncodeRecord(r) == Ok(frame.plaintext)
  }

  lemma ReadRecordAnswers(c: Core, frame: Frame)
    ensures var read := ReadRecord(c, frame);
            && (Closed(c, frame).Some? ==> read.result.Err? && read.result.error.reason == Closed(c, frame).value)
            && (read.result.Err? ==> read.result.error.peerClose.None?)
            && (Closed(c, frame).None? ==> read.result == match DecodeRecord(frame.plaintext)
                                                          case Ok(r) => Ok(r)
                                                          case Err(reason) => Err(Plainly(reason)))
            && (forall r :: read.result == Ok(r) <==> Brings(c, frame, r))
            && (read.result.Ok? ==> SameButCounts(c, read.core))
  {
    hide AtLimit, DecodeRecord, EncodeRecord;
    LimitReason(c.(transport := if Usable(c) then Some(AfterOpen(c.transport.value)) else None), c.handoff);
    if Closed(c, frame).None? {
      forall r ensures DecodeRecord(frame.plaintext) == Ok(r) <==> EncodeRecord(r) == Ok(frame.plaintext) {
        RecordExact(frame.plaintext, r);
      }
    }
  }

  /** Opening a frame moves the nonce and the counts and nothing else. */
  predicate SameButCounts(c: Core, d: Core) {
    d == c.(transport := d.transport, receivedRecords := d.receivedRecords, receivedPlaintext := d.receivedPlaintext)
  }

  /** The Finished the peer has to send. */
  function PeerFinished(role: Role, c: Core): Record
    requires c.sessionHash.Some?
  {
    var payload := FinishedPayload(c.binding, if role.Target? then 1 else 0, c.sessionHash.value);
    FinishedLength(c.binding, if role.Target? then 1 else 0, c.sessionHash.value);
    Record(Finished, true, true, |payload|, 0, payload)
  }

  /** A Finished is taken exactly if it is the peer's, for this binding and this
      handshake, and the first; every other record, wherever it comes from, is not. */
  lemma PeerFinishedAnswers(role: Role, c: Core, frame: Frame)
    ensures var e := Do(role, c, RecvFinished(frame));
            ReasonOf(e).None? <==>
            && (role.Target? ==> c.sentFinished) && !c.gotFinished && c.sessionHash.Some?
            && Brings(c, frame, PeerFinished(role, c))
    ensures var e := Do(role, c, RecvFinished(frame));
            && (role.Target? && !c.sentFinished ==> ReasonOf(e) == Some(SequenceViolation))
            && ((role.Target? ==> c.sentFinished) && c.gotFinished ==> ReasonOf(e) == Some(AuthenticationFailed))
            && ((role.Target? ==> c.sentFinished) && !c.gotFinished && c.sessionHash.Some? && Closed(c, frame).Some?
                ==> ReasonOf(e) == Closed(c, frame))
  {
    hide ReadRecord, FinishedPayload, ParseFinished, EncodeRecord, Closed, Brings;
    ReadRecordAnswers(c, frame);
    if c.sessionHash.Some? {
      FinishedLength(c.binding, if role.Target? then 1 else 0, c.sessionHash.value);
      if ReadRecord(c, frame).result.Ok? {
        FinishedExact(ReadRecord(c, frame).result.value.data, c.binding, c.sessionHash.value,
                      if role.Target? then 1 else 0);
      }
    }
  }

  // ---- Messages in pieces ----------------------------------------------

  /** What had come of the message before. */
  function Had(s: Reassembly): seq<byte> {
    if s.active.Some? then s.active.value.data else []
  }

  function Due(s: Reassembly, r: Record): nat {
    if s.active.Some? then s.active.value.total else r.totalLen
  }

  predicate Spent(s: Reassembly, r: Record) {
    s.records + 1 >= 0x1_0000_0000 || s.bytes + 12 + |r.data| >= 0x100_0000_0000
  }

  /** The record is where the message goes on: its first at the start of one, of any
      kind, or the next of the same kind. */
  predicate InOrder(s: Reassembly, r: Record) {
    && r.start == s.active.None? && r.offset == |Had(s)|
    && (s.active.Some? ==> r.kind == s.active.value.kind && r.totalLen == 0)
  }

  /** It brings no more than the message has, and all of it by the last record. */
  predicate InSize(s: Reassembly, r: Record) {
    && |Had(s)| + |r.data| <= Due(s, r) && (r.end ==> |Had(s)| + |r.data| == Due(s, r))
    && (r.start && !r.end ==> r.totalLen > 0)
  }

  /** A piece of a message is taken exactly if nothing has failed, the quotas last, the
      message is not too long, and the piece is in order and in size; the reason it is
      refused for is the first of these that does not hold.  A whole Close has to be one. */
  lemma PieceAnswers(s: Reassembly, r: Record)
    ensures var result, all := AcceptSpec(s, r).1, Had(s) + r.data;
            if s.failed then result == Err(SequenceViolation)
            else if Spent(s, r) then result == Err(RecordLimit)
            else if r.start && r.totalLen > s.cap then result == Err(Oversize)
            else if !InOrder(s, r) then result == Err(SequenceViolation)
            else if !InSize(s, r) then result == Err(Malformed)
            else if r.end && r.kind.Close? && ParseClose(all).Err? then result == Err(Malformed)
            else result == Ok(if r.end then Some(Message(r.kind, all)) else None)
  {
    hide Payloads.ParseClose;
    assert [] + r.data == r.data;
  }

  // ---- Reading an application ------------------------------------------

  /** The reason a record that has been read is refused for where an application is
      awaited, or none. */
  function Unwanted(c: Core, r: Record): Option<CloseReason>
    requires !r.kind.Close?
  {
    var s := c.reassembly;
    if !r.kind.Application? || !c.peerTurn || s.failed then Some(SequenceViolation)
    else if Spent(s, r) then Some(RecordLimit)
    else if r.start && r.totalLen > s.cap then Some(Oversize)
    else if !InOrder(s, r) then Some(SequenceViolation)
    else if !InSize(s, r) || (r.end && Had(s) + r.data == []) then Some(Malformed)
    else None
  }

  /** Whatever the role, reading an application is reading it by the core. */
  lemma RecvIsRead(role: Role, c: Core, frame: Frame)
    ensures var e, read := Do(role, c, Recv(frame)), ReadApplication(c, frame);
            if read.result.Err? then e.failure == Some(read.result.error) && e.delivered.None?
            else e.failure.None? && e.delivered == read.result.value
  {
    hide ReadRecord, AcceptSpec, PeerClose;
    ReadLeaves(c, frame);
  }

  lemma ReadLeaves(c: Core, frame: Frame)
    ensures var read := ReadApplication(c, frame);
            read.result.Ok? && read.result.value.Some? ==>
              !read.core.reassembly.failed && read.core.reassembly.active.None?
  {
    hide ReadRecord, AcceptSpec, ParseClose;
    var read := ReadRecord(c, frame);
    if read.result.Ok? {
      PieceLeaves(read.core.reassembly, read.result.value);
    }
  }

  /** An application record is taken exactly if both Finished are exchanged, it is the
      peer's turn, and the record is the next piece; its last one delivers the whole
      message.  Everything else fails, for the reason told. */
  lemma PeerMessageAnswers(role: Role, c: Core, frame: Frame, r: Record)
    ensures var e := Do(role, c, Recv(frame));
            && (!c.sentFinished || !c.gotFinished ==> ReasonOf(e) == Some(SequenceViolation))
            && (c.sentFinished && c.gotFinished && Closed(c, frame).Some? ==> ReasonOf(e) == Closed(c, frame))
            && (c.sentFinished && c.gotFinished && Brings(c, frame, r) && !r.kind.Close? ==>
                  && ReasonOf(e) == Unwanted(c, r)
                  && e.delivered
                     == if Unwanted(c, r).None? && r.end then Some(Had(c.reassembly) + r.data) else None)
  {
    hide ReadRecord, EncodeRecord, Closed, Brings, AcceptSpec, Do;
    RecvIsRead(role, c, frame);
    ReadRecordAnswers(c, frame);
    if ReadRecord(c, frame).result.Ok? && ReadRecord(c, frame).result.value.kind.Application? {
      PieceAnswers(c.reassembly, ReadRecord(c, frame).result.value);
    }
  }

  /** A piece that is taken leaves nothing failed, and the last one nothing begun. */
  lemma PieceLeaves(s: Reassembly, r: Record)
    ensures AcceptSpec(s, r).1.Ok? ==> !AcceptSpec(s, r).0.failed
    ensures AcceptSpec(s, r).1.Ok? && AcceptSpec(s, r).1.value.Some? ==> AcceptSpec(s, r).0.active.None?
  {
  }

  // ---- Reading a Close -------------------------------------------------

  /** A Close that is read where an application is awaited is reported with what it
      says, and so it is where a Close is awaited. */
  lemma PeerCloseAnswers(role: Role, c: Core, frame: Frame, closing: Closing)
    requires c.sentFinished && c.gotFinished
    ensures Brings(c, frame, CloseRecord(closing)) <==>
            Do(role, c, Recv(frame)).failure == Some(Failure(PeerClosed, Some(closing), None))
    ensures Brings(c, frame, CloseRecord(closing)) <==> RoleReadClose(c, frame).result == Ok(closing)
  {
    hide ReadRecord, EncodeRecord, Closed, Brings, AcceptSpec, ParseClose, ClosePayload, Do;
    RecvIsRead(role, c, frame);
    ReadRecordAnswers(c, frame);
    CloseLength(closing.reason, closing.handoff);
    if ReadRecord(c, frame).result.Ok? {
      var r := ReadRecord(c, frame).result.value;
      CloseExact(r.data, closing.reason, closing.handoff);
      if r.kind.Application? {
        PieceFails(c.reassembly, r);
      }
    }
  }

  lemma PieceFails(s: Reassembly, r: Record)
    requires r.kind.Application?
    ensures var result := AcceptSpec(s, r).1; result.Err? ==> result.error != PeerClosed
  {
    hide Payloads.ParseClose;
  }

  /** And where a Close is awaited, nothing else is taken. */
  lemma OnlyCloseIsTaken(c: Core, frame: Frame)
    ensures var r := RoleReadClose(c, frame).result;
            && (!c.sentFinished || !c.gotFinished ==> r.Err? && r.error == Plainly(SequenceViolation))
            && (c.sentFinished && c.gotFinished && Closed(c, frame).Some? ==>
                  r.Err? && r.error.reason == Closed(c, frame).value)
            && (r.Ok? ==> Brings(c, frame, CloseRecord(r.value)))
  {
    hide ReadRecord, EncodeRecord, Closed, Brings, ParseClose, ClosePayload;
    ReadRecordAnswers(c, frame);
    var r := RoleReadClose(c, frame).result;
    if r.Ok? {
      CloseLength(r.value.reason, r.value.handoff);
      CloseExact(ReadRecord(c, frame).result.value.data, r.value.reason, r.value.handoff);
    }
  }

  // ---- The end ---------------------------------------------------------

  /** Every failure ends the session, whatever the call. */
  lemma FailuresClose(role: Role, c: Core, call: Call)
    ensures Do(role, c, call).failure.Some? ==> Do(role, c, call).core.closed
  {
    hide WriteHandshake, ReadHandshake, FinishHandshake, WriteFinished, ReadFinished, WriteApplication, ReadApplication;
    hide WriteClose, ReadClose;
    if role.Target? && call.Recv? {
      DeliveryCloses(c, call.frame);
    }
  }

  lemma DeliveryCloses(c: Core, frame: Frame)
    ensures TargetReadApplication(c, frame).result.Err? ==> TargetReadApplication(c, frame).core.closed
  {
    hide ReadApplication;
    ReadLeaves(c, frame);
  }
}
