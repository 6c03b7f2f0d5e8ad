/** What every call sequence keeps on one side, whatever the peer sends. */
module SessionRuns {
  import opened Common
  import opened Terms
  import opened Payloads
  import opened Records
  import opened Noise
  import opened Session

  /** A core before or after its handshake, with its counters in step with the
      channel and room for one more Close. */
  predicate Sound(role: Role, c: Core) {
    if c.closed then c.transport.None? && c.handshake.None?
    else
      && !c.reassembly.failed
      && c.reassembly.records <= c.receivedRecords
      && c.reassembly.bytes <= c.receivedPlaintext
      && Fits(c, 0, 0, true)
      && (if c.handshake.Some? then Shaking(role, c) else Talking(role, c))
  }

  predicate Shaking(role: Role, c: Core) {
    && c.handshake.Some?
    && c.handshake.value.initiator == role.Target?
    && c.handshake.value.ctx.binding == c.binding
    && c.handshake.value.step <= (if role.Target? then 1 else 0)
    && c.transport.None? && c.sessionHash.None?
    && !c.sentFinished && !c.gotFinished
    && c.sentRecords == c.sentPlaintext == c.receivedRecords == c.receivedPlaintext == 0
    && c.reassembly.active.None?
  }

  predicate Talking(role: Role, c: Core) {
    && c.handshake.None?
    && c.transport.Some?
    && c.transport.value.initiator == role.Target?
    && c.sessionHash == Some(c.transport.value.key)
    && c.transport.value.sendNonce == c.sentRecords
    && c.transport.value.recvNonce == c.receivedRecords
  }

  lemma NewIsSound(role: Role, binding: SessionBinding, psk: Bytes32)
    ensures var made := if role.Target? then NewTarget(binding, psk) else NewBroker(binding, psk);
            made.Ok? ==> Sound(role, made.value)
  {
  }

  // Failures close the core, so only successes have to be looked at.

  lemma ReadRecordSound(role: Role, c: Core, frame: Frame)
    requires Sound(role, c)
    ensures ReadRecord(c, frame).result.Ok? ==>
              var c1 := ReadRecord(c, frame).core;
              && frame.Sealed? && Sound(role, c1) && Usable(c) && Usable(c1)
              && c1.reassembly == c.reassembly
              && c1.receivedRecords == c.receivedRecords + 1 < RECORD_LIMIT
              && c1.receivedPlaintext == c.receivedPlaintext + |frame.plaintext| < BYTE_LIMIT
              && DecodeRecord(frame.plaintext) == Ok(ReadRecord(c, frame).result.value)
  {
    hide DecodeRecord, AtLimit;
  }

  lemma WriteRecordSound(role: Role, c: Core, kind: RecordKind, payload: seq<byte>)
    requires Sound(role, c)
    ensures WriteRecord(c, kind, payload).result.Ok? ==>
              Sound(role, WriteRecord(c, kind, payload).core) && Usable(WriteRecord(c, kind, payload).core)
  {
    hide EncodeRecord, Plain, AtLimit;
  }

  lemma WriteApplicationSound(role: Role, c: Core, payload: seq<byte>, cap: nat)
    requires Sound(role, c) && cap <= RESPONSE_BYTES
    ensures WriteApplication(c, payload, cap).result.Ok? ==> Sound(role, WriteApplication(c, payload, cap).core)
  {
    hide FragmentsFrom, SealAll, AtLimit, Plains, Volume;
  }

  lemma AssembleSound(role: Role, c: Core, r: Record)
    requires Sound(role, c) && Usable(c)
    requires c.reassembly.records < c.receivedRecords
    requires c.reassembly.bytes + RECORD_HEADER_LEN + |r.data| <= c.receivedPlaintext
    ensures Assemble(c, r).result.Ok? ==> Sound(role, Assemble(c, r).core)
  {
    hide ValidateControl;
  }

  lemma ReadApplicationSound(role: Role, c: Core, frame: Frame)
    requires Sound(role, c)
    ensures ReadApplication(c, frame).result.Ok? ==> Sound(role, ReadApplication(c, frame).core)
  {
    hide ReadRecord, Assemble, DecodeRecord, EncodeRecord, ParseClose;
    ReadRecordSound(role, c, frame);
    var read := ReadRecord(c, frame);
    if read.result.Ok? {
      DecodedFits(frame.plaintext, read.result.value);
      if read.result.value.kind.Application? {
        AssembleSound(role, read.core, read.result.value);
      }
    }
  }

  lemma HelloSound(role: Role, c: Core, call: Call)
    requires Sound(role, c) && (call.WriteHello? || call.ReadHello?)
    ensures Sound(role, Do(role, c, call).core)
  {
    hide WriteFinished, ReadFinished, WriteApplication, ReadApplication, WriteClose, ReadClose;
  }

  lemma SendFinishedSound(role: Role, c: Core)
    requires Sound(role, c)
    ensures Sound(role, Do(role, c, SendFinished).core)
  {
    hide WriteRecord, FinishedPayload;
    if c.sessionHash.Some? {
      var wire := if role.Target? then TARGET_ROLE else BROKER_ROLE;
      WriteRecordSound(role, c, Finished, FinishedPayload(c.binding, wire, c.sessionHash.value));
    }
  }

  lemma RecvFinishedSound(role: Role, c: Core, frame: Frame)
    requires Sound(role, c)
    ensures Sound(role, Do(role, c, RecvFinished(frame)).core)
  {
    hide ReadRecord, ParseFinished;
    ReadRecordSound(role, c, frame);
  }

  lemma SendSound(role: Role, c: Core, payload: seq<byte>, opening: bool)
    requires Sound(role, c)
    ensures Sound(role, Do(role, c, Send(payload, opening)).core)
  {
    hide WriteApplication;
    WriteApplicationSound(role, c, payload, if role.Target? then RESPONSE_BYTES else REQUEST_BYTES);
    WriteApplicationSound(role, c.(firstApplication := true), payload, REQUEST_BYTES);
  }

  lemma TargetRecvSound(c: Core, frame: Frame)
    requires Sound(Target, c)
    ensures Sound(Target, TargetReadApplication(c, frame).core)
  {
    hide ReadApplication;
    ReadApplicationSound(Target, c, frame);
  }

  lemma BrokerRecvSound(c: Core, frame: Frame)
    requires Sound(Broker, c)
    ensures Sound(Broker, BrokerReadResponse(c, frame).core)
  {
    hide ReadApplication;
    ReadApplicationSound(Broker, c, frame);
  }

  lemma RecvSound(role: Role, c: Core, frame: Frame)
    requires Sound(role, c)
    ensures Sound(role, Do(role, c, Recv(frame)).core)
  {
    hide TargetReadApplication, BrokerReadResponse, Sound;
    if role.Target? {
      TargetRecvSound(c, frame);
    } else {
      BrokerRecvSound(c, frame);
    }
  }

  lemma ClosingSound(role: Role, c: Core, call: Call)
    requires Sound(role, c)
    requires call.SendClose? || call.RecvClose? || call.EndOfStream? || call.CheckBinding?
    ensures Sound(role, Do(role, c, call).core)
  {
    hide ReadRecord, AtLimit, CloseRecord, Plain, ParseClose;
  }

  /** Every call, with any arguments and any frame, keeps the invariant. */
  lemma CallKeepsSound(role: Role, c: Core, call: Call)
    requires Sound(role, c)
    ensures Sound(role, Do(role, c, call).core)
  {
    hide Do, Sound;
    match call {
      case WriteHello => HelloSound(role, c, call);
      case ReadHello(_, _) => HelloSound(role, c, call);
      case SendFinished => SendFinishedSound(role, c);
      case RecvFinished(frame) => RecvFinishedSound(role, c, frame);
      case Send(payload, opening) => SendSound(role, c, payload, opening);
      case Recv(frame) => RecvSound(role, c, frame);
      case _ => ClosingSound(role, c, call);
    }
  }

  function Run(role: Role, c: Core, calls: seq<Call>): Core
    decreases |calls|
  {
    if calls == [] then c else Run(role, Do(role, c, calls[0]).core, calls[1..])
  }

  lemma {:induction false} RunKeepsSound(role: Role, c: Core, calls: seq<Call>)
    requires Sound(role, c)
    ensures Sound(role, Run(role, c, calls))
    decreases |calls|
  {
    if calls != [] {
      CallKeepsSound(role, c, calls[0]);
      RunKeepsSound(role, Do(role, c, calls[0]).core, calls[1..]);
    }
  }

  /** What a Close frame says, as its receiver reads it. */
  function CloseIn(frame: Frame): Option<Closing> {
    if !frame.Sealed? then None
    else
      match DecodeRecord(frame.plaintext)
      case Err(_) => None
      case Ok(r) =>
        if !r.kind.Close? then None
        else
          match ParseClose(r.data)
          case Err(_) => None
          case Ok(close) => Some(Closing(close.0, close.1))
  }

  lemma CloseFrameReads(t: Transport, closing: Closing)
    ensures |Plain(CloseRecord(closing))| == CLOSE_RECORD_LEN
    ensures CloseIn(SealFrame(t, Plain(CloseRecord(closing)))) == Some(closing)
  {
    hide EncodeRecord, DecodeRecord, ParseClose, ClosePayload;
    PlainFacts(CloseRecord(closing));
    CloseExact(ClosePayload(closing.reason, closing.handoff), closing.reason, closing.handoff);
  }

  lemma CloseFits(c: Core, reason: CloseReason, handoff: Handoff)
    requires Usable(c) && Fits(c, 0, 0, true)
    ensures RoleWriteClose(c, reason, handoff).result.Ok?
    ensures CloseIn(RoleWriteClose(c, reason, handoff).result.value) ==
            Some(Closing(reason, ConservativeMax(c.handoff, handoff)))
  {
    hide CloseIn, CloseRecord, Plain;
    CloseFrameReads(c.transport.value, Closing(reason, ConservativeMax(c.handoff, handoff)));
  }

  /** In every reachable open state a Close can still be sent: it yields a
      frame that says the given reason and at least the hand-off so far. */
  lemma CloseAlwaysFits(role: Role, binding: SessionBinding, psk: Bytes32, start: Core, calls: seq<Call>,
                        reason: CloseReason, handoff: Handoff)
    requires (if role.Target? then NewTarget(binding, psk) else NewBroker(binding, psk)) == Ok(start)
    requires Usable(Run(role, start, calls))
    ensures var c := Run(role, start, calls);
            && c.sentRecords + 1 < RECORD_LIMIT
            && c.sentPlaintext + CLOSE_RECORD_LEN < BYTE_LIMIT
            && RoleWriteClose(c, reason, handoff).result.Ok?
            && CloseIn(RoleWriteClose(c, reason, handoff).result.value) ==
               Some(Closing(reason, ConservativeMax(c.handoff, handoff)))
  {
    hide Run, RoleWriteClose, CloseIn;
    NewIsSound(role, binding, psk);
    RunKeepsSound(role, start, calls);
    var c := Run(role, start, calls);
    CloseFits(c, reason, handoff);
  }

  /** The frame a limit error carries, at whatever step the limit was hit. */
  predicate ClosesAtLimit(c: Core, e: Effect) {
    && e.core.closed
    && |e.frames| == 1
    && CloseIn(e.frames[0]).Some?
    && CloseIn(e.frames[0]).value.reason == RecordLimit
    && (c.handoff.HandoffPossibleOrConfirmed? ==> CloseIn(e.frames[0]).value.handoff.HandoffPossibleOrConfirmed?)
  }

  lemma AtLimitCloses(c: Core, handoff: Handoff)
    requires Usable(c) && Fits(c, 0, 0, true)
    ensures AtLimit(c, handoff).failure.closeFrame.Some?
    ensures AtLimit(c, handoff).failure.peerClose.None?
    ensures CloseIn(AtLimit(c, handoff).failure.closeFrame.value) == Some(Closing(RecordLimit, handoff))
    ensures AtLimit(c, handoff).failure.reason == RecordLimit && AtLimit(c, handoff).core.closed
  {
    hide CloseIn, CloseRecord, Plain;
    CloseFrameReads(c.transport.value, Closing(RecordLimit, handoff));
  }

  lemma ReadLimit(c: Core, frame: Frame)
    requires Usable(c) && Fits(c, 0, 0, true)
    ensures var read := ReadRecord(c, frame);
            read.result.Err? && read.result.error.reason == RecordLimit ==>
              && read.core.closed
              && read.result.error.closeFrame.Some?
              && CloseIn(read.result.error.closeFrame.value) == Some(Closing(RecordLimit, c.handoff))
    ensures var read := ReadRecord(c, frame);
            read.result.Err? && read.result.error.reason != RecordLimit ==> read.result.error.closeFrame.None?
  {
    hide CloseIn, AtLimit;
    AtLimitCloses(c.(transport := Some(AfterOpen(c.transport.value))), c.handoff);
  }

  lemma AssemblyHasRoom(role: Role, c: Core, r: Record)
    requires Sound(role, c)
    requires c.reassembly.records < c.receivedRecords < RECORD_LIMIT
    requires c.reassembly.bytes + RECORD_HEADER_LEN + |r.data| <= c.receivedPlaintext < BYTE_LIMIT
    ensures Assemble(c, r).result.Err? ==>
              && Assemble(c, r).result.error.reason != RecordLimit
              && Assemble(c, r).result.error.closeFrame.None?
  {
    hide ParseClose;
  }

  predicate HitsLimit(e: Effect) {
    e.failure.Some? && e.failure.value.reason == RecordLimit
  }

  lemma SendFinishedLimit(role: Role, c: Core)
    requires Sound(role, c) && Usable(c)
    ensures var e := Do(role, c, SendFinished); HitsLimit(e) ==> ClosesAtLimit(c, e)
  {
    hide CloseIn, AtLimit, FinishedPayload, EncodeRecord;
    AtLimitCloses(c, c.handoff);
  }

  lemma RecvFinishedLimit(role: Role, c: Core, frame: Frame)
    requires Sound(role, c) && Usable(c)
    ensures var e := Do(role, c, RecvFinished(frame)); HitsLimit(e) ==> ClosesAtLimit(c, e)
  {
    hide CloseIn, AtLimit, ReadRecord, ParseFinished;
    ReadLimit(c, frame);
  }

  lemma WriteApplicationLimit(role: Role, c: Core, payload: seq<byte>, cap: nat)
    requires Sound(role, c) && Usable(c) && cap <= RESPONSE_BYTES
    ensures var out := WriteApplication(c, payload, cap);
            out.result.Err? ==>
              if out.result.error.reason == RecordLimit then ClosesAtLimit(c, Failed(Finish(out)))
              else out.result.error.closeFrame.None?
  {
    hide CloseIn, AtLimit, Plains, Volume, FragmentsFrom, SealAll;
    AtLimitCloses(c, c.handoff);
  }

  lemma SendLimit(role: Role, c: Core, payload: seq<byte>, opening: bool)
    requires Sound(role, c) && Usable(c)
    ensures var e := Do(role, c, Send(payload, opening)); HitsLimit(e) ==> ClosesAtLimit(c, e)
  {
    hide WriteApplication, CloseIn;
    WriteApplicationLimit(role, c, payload, if role.Target? then RESPONSE_BYTES else REQUEST_BYTES);
    WriteApplicationLimit(role, c.(firstApplication := true), payload, REQUEST_BYTES);
  }

  lemma RecvLimit(role: Role, c: Core, frame: Frame)
    requires Sound(role, c) && Usable(c)
    ensures var e := Do(role, c, Recv(frame)); HitsLimit(e) ==> ClosesAtLimit(c, e)
  {
    hide ReadRecord, Assemble, ParseClose, EncodeRecord, DecodeRecord, CloseIn, AtLimit;
    ReadLimit(c, frame);
    ReadRecordSound(role, c, frame);
    var read := ReadRecord(c, frame);
    if read.result.Ok? {
      DecodedFits(frame.plaintext, read.result.value);
      AssemblyHasRoom(role, read.core, read.result.value);
    }
  }

  lemma OtherLimit(role: Role, c: Core, call: Call)
    requires Sound(role, c) && Usable(c)
    requires !call.SendFinished? && !call.RecvFinished? && !call.Send? && !call.Recv?
    ensures HitsLimit(Do(role, c, call)) ==> ClosesAtLimit(c, Do(role, c, call))
  {
    hide CloseIn, AtLimit, ReadRecord, CloseRecord, Plain, ParseClose;
    if call.RecvClose? {
      ReadLimit(c, call.frame);
    }
  }

  /** Whatever call hits a quota, its error carries one last Close. */
  lemma LimitErrorsClose(role: Role, c: Core, call: Call)
    requires Sound(role, c) && Usable(c) && HitsLimit(Do(role, c, call))
    ensures ClosesAtLimit(c, Do(role, c, call))
  {
    hide Do, Sound, ClosesAtLimit, HitsLimit;
    match call {
      case SendFinished => SendFinishedLimit(role, c);
      case RecvFinished(frame) => RecvFinishedLimit(role, c, frame);
      case Send(payload, opening) => SendLimit(role, c, payload, opening);
      case Recv(frame) => RecvLimit(role, c, frame);
      case _ => OtherLimit(role, c, call);
    }
  }

  /** A message is either on the wire in full, every fragment counted, or not
      at all; what a refusal may emit is a single Close. */
  lemma MessageIsAllOrNothing(role: Role, c: Core, payload: seq<byte>, opening: bool)
    requires Sound(role, c) && Usable(c)
    ensures var e := Do(role, c, Send(payload, opening));
            if e.failure.None? then
              && Sendable(payload)
              && (var rs := FragmentsFrom(Application, payload, 0);
              && Sealable(Plains(rs))
              && e.frames == SealAll(c.transport.value, Plains(rs))
              && e.core.sentRecords == c.sentRecords + |e.frames|
              && e.core.sentPlaintext == c.sentPlaintext + Volume(Plains(rs)))
            else
              && e.core.closed
              && (e.frames == [] || ClosesAtLimit(c, e))
  {
    hide CloseIn, AtLimit, FragmentsFrom, SealAll, Plains, Volume;
    SendLimit(role, c, payload, opening);
    WriteApplicationLimit(role, c, payload, if role.Target? then RESPONSE_BYTES else REQUEST_BYTES);
    WriteApplicationLimit(role, c.(firstApplication := true), payload, REQUEST_BYTES);
    if Sendable(payload) {
      FragmentsFitFrames(FragmentsFrom(Application, payload, 0));
    }
  }
}
