/** What one call can do to a sound core, case by case: nothing, an end with or
    without a Close, a Finished, a message, or a handshake step. */
module Calls {
  import opened Common
  import opened Terms
  import opened Payloads
  import opened Records
  import opened Noise
  import opened Session
  import opened SessionRuns
  import opened Lanes

  /** Nothing goes out, and the core is as before or closed. */
  predicate Quiet(c: Core, e: Effect) {
    && e.frames == []
    && e.delivered.None?
    && SameOutbound(c, e.core)
    && e.core.handoff == c.handoff
    && (e.core == c || e.core.closed)
  }

  /** The core closes with one Close frame that admits at least its hand-off. */
  predicate Ends(c: Core, e: Effect) {
    && Usable(c)
    && e.delivered.None? && e.core.closed
    && e.core.binding == c.binding && e.core.sentFinished == c.sentFinished && e.core.handoff == c.handoff
    && e.core.sentRecords == c.sentRecords + 1 < RECORD_LIMIT
    && e.core.sentPlaintext == c.sentPlaintext + CLOSE_RECORD_LEN < BYTE_LIMIT
    && |e.frames| == 1
    && CloseIn(e.frames[0]).Some?
    && e.frames[0] == SealFrame(c.transport.value, CloseText(CloseIn(e.frames[0]).value))
    && (c.handoff.HandoffPossibleOrConfirmed? ==> CloseIn(e.frames[0]).value.handoff.HandoffPossibleOrConfirmed?)
  }

  predicate Finishes(role: Role, c: Core, e: Effect) {
    && Usable(c) && !c.sentFinished
    && e.delivered.None?
    && var r := FinishedRecord(role, c.binding, c.transport.value.key);
       && e.frames == [SealFrame(c.transport.value, Plain(r))]
       && e.core == AfterSealing(Sent(c, 1, RECORD_HEADER_LEN + |r.data|)).(sentFinished := true)
  }

  function SendCap(role: Role, opening: bool): nat {
    if role.Target? then RESPONSE_BYTES else if opening then FIRST_OPEN_BYTES else REQUEST_BYTES
  }

  /** The core after a whole message went out. */
  function Spoke(role: Role, c: Core, rs: seq<Record>): Core
    requires c.transport.Some? && Fitting(rs)
  {
    var t := c.transport.value;
    Sent(c, |rs|, Weight(rs)).(
      transport := Some(t.(sendNonce := t.sendNonce + |rs|)),
      peerTurn := true,
      firstApplication := true,
      handoff := if role.Target? then c.handoff else HandoffPossibleOrConfirmed)
  }

  predicate Speaks(role: Role, c: Core, payload: seq<byte>, opening: bool, e: Effect) {
    && Usable(c) && c.sentFinished && c.gotFinished && !c.peerTurn
    && c.firstApplication == (role.Target? || !opening)
    && e.delivered.None?
    && Sendable(payload) && |payload| <= SendCap(role, opening)
    && var rs := FragmentsFrom(Application, payload, 0);
       && e.frames == Frames(c.transport.value, rs)
       && e.core == Spoke(role, c, rs)
  }

  lemma LimitEnds(c: Core, handoff: Handoff, e: Effect)
    requires Usable(c) && Fits(c, 0, 0, true)
    requires c.handoff.HandoffPossibleOrConfirmed? ==> handoff.HandoffPossibleOrConfirmed?
    requires AtLimit(c, handoff).failure.closeFrame.Some? ==>
               e.frames == [AtLimit(c, handoff).failure.closeFrame.value]
    requires e.delivered.None? && e.core == CloseState(AtLimit(c, handoff).core)
    ensures Ends(c, e)
  {
    hide CloseIn, CloseRecord, Plain;
    CloseFrameReads(c.transport.value, Closing(RecordLimit, handoff));
  }

  /** Calls that neither read a frame nor send a message. */
  lemma EndingCall(role: Role, c: Core, call: Call)
    requires Sound(role, c) && !c.closed
    requires call.SendClose? || call.EndOfStream? || call.CheckBinding? || (call.WriteHello? && role.Broker?)
    ensures var e := Do(role, c, call); Quiet(c, e) || Ends(c, e)
  {
    hide CloseIn, CloseText, WriteClose, Ends, Sound, Quiet, Session.Eof, ValidateBinding;
    match call {
      case SendClose(reason, handoff) =>
        OpenFits(role, c);
        WriteCloseEnds(c, reason, handoff);
      case EndOfStream => EofIsQuiet(c);
      case CheckBinding(generation, epoch) => BindingIsQuiet(c, generation, epoch);
      case WriteHello => NothingIsQuiet(c);
    }
  }

  lemma OpenFits(role: Role, c: Core)
    requires Sound(role, c) && !c.closed
    ensures Fits(c, 0, 0, true)
  {
  }

  lemma EofIsQuiet(c: Core)
    ensures Quiet(c, Silent(Session.Eof(c)))
  {
  }

  lemma BindingIsQuiet(c: Core, generation: u64, epoch: u64)
    ensures Quiet(c, Silent(ValidateBinding(c, generation, epoch)))
  {
  }

  lemma NothingIsQuiet(c: Core)
    ensures Quiet(c, Effect(c, [], None, None))
  {
  }

  lemma WriteCloseEnds(c: Core, reason: CloseReason, handoff: Handoff)
    requires !c.closed && Fits(c, 0, 0, true)
    ensures var e := OneFrame(Finish(WriteClose(c, reason, handoff))); Quiet(c, e) || Ends(c, e)
  {
    hide CloseIn, CloseRecord, Plain, AtLimit;
    if Usable(c) {
      CloseFrameReads(c.transport.value, Closing(reason, ConservativeMax(c.handoff, handoff)));
    }
  }

  lemma FinishedCall(role: Role, c: Core)
    requires Sound(role, c) && !c.closed
    ensures var e := Do(role, c, SendFinished); Quiet(c, e) || Ends(c, e) || Finishes(role, c, e)
    ensures Finishes(role, c, Do(role, c, SendFinished)) && role.Broker? ==> c.gotFinished
  {
    hide CloseIn, Plain, AtLimit, EncodeRecord, FinishedPayload, CloseRecord;
    var e := Do(role, c, SendFinished);
    if Usable(c) && !c.sentFinished {
      FinishedLength(c.binding, WireRole(role), c.sessionHash.value);
      if (role.Target? || c.gotFinished) && e.core.closed {
        LimitEnds(c, c.handoff, e);
      }
    }
  }

  lemma WriteApplicationRefused(c: Core, payload: seq<byte>, cap: nat)
    requires !c.closed && Fits(c, 0, 0, true) && cap <= RESPONSE_BYTES
    requires WriteApplication(c, payload, cap).result.Err?
    requires c.transport.None? ==> !c.sentFinished
    ensures var e := Failed(Finish(WriteApplication(c, payload, cap))); e.core.closed && (Quiet(c, e) || Ends(c, e))
  {
    hide CloseIn, AtLimit, FragmentsFrom, SealAll, Plains, Volume, CloseText;
    var out := WriteApplication(c, payload, cap);
    if Usable(c) {
      AtLimitCloses(c, c.handoff);
    }
    if out.result.error.reason == RecordLimit && Usable(c) {
      LimitEnds(c, c.handoff, Failed(Finish(out)));
    }
  }

  lemma WriteApplicationDone(c: Core, payload: seq<byte>, cap: nat)
    requires cap <= RESPONSE_BYTES && WriteApplication(c, payload, cap).result.Ok?
    ensures Usable(c) && c.sentFinished && c.gotFinished && !c.peerTurn
    ensures Sendable(payload) && |payload| <= cap
    ensures var out, rs := WriteApplication(c, payload, cap), FragmentsFrom(Application, payload, 0);
            && out.result.value == Frames(c.transport.value, rs)
            && out.core == Spoke(Target, c, rs).(firstApplication := c.firstApplication)
  {
    hide AtLimit, FragmentsFrom, SealAll, Plains, Volume, Fitting, Sealable;
    assert WriteApplication(c, payload, cap) == SendMessage(c, payload);
  }

  lemma MessageCall(role: Role, c: Core, payload: seq<byte>, opening: bool)
    requires Sound(role, c) && !c.closed
    ensures var e := Do(role, c, Send(payload, opening));
            if e.failure.None? then Speaks(role, c, payload, opening, e) else Quiet(c, e) || Ends(c, e)
  {
    hide WriteApplication, CloseIn, CloseText, FragmentsFrom, Frames, Weight;
    if role.Target? {
      TargetMessage(c, payload, opening);
    } else {
      BrokerMessage(c, payload, opening);
    }
  }

  lemma TargetMessage(c: Core, payload: seq<byte>, opening: bool)
    requires Sound(Target, c) && !c.closed
    ensures var e := Do(Target, c, Send(payload, opening));
            if e.failure.None? then Speaks(Target, c, payload, opening, e) else Quiet(c, e) || Ends(c, e)
  {
    hide WriteApplication, CloseIn, CloseText, FragmentsFrom, Frames, Weight;
    if WriteApplication(c, payload, RESPONSE_BYTES).result.Ok? {
      WriteApplicationDone(c, payload, RESPONSE_BYTES);
    } else {
      WriteApplicationRefused(c, payload, RESPONSE_BYTES);
    }
  }

  lemma BrokerMessage(c: Core, payload: seq<byte>, opening: bool)
    requires Sound(Broker, c) && !c.closed
    ensures var e := Do(Broker, c, Send(payload, opening));
            if e.failure.None? then Speaks(Broker, c, payload, opening, e) else Quiet(c, e) || Ends(c, e)
  {
    hide WriteApplication, CloseIn, CloseText, FragmentsFrom, Frames, Weight, Ends;
    var c1 := if opening then c.(firstApplication := true) else c;
    if WriteApplication(c1, payload, REQUEST_BYTES).result.Ok? {
      WriteApplicationDone(c1, payload, REQUEST_BYTES);
    } else {
      WriteApplicationRefused(c1, payload, REQUEST_BYTES);
      EndsAsWell(c, c1, Failed(Finish(WriteApplication(c1, payload, REQUEST_BYTES))));
    }
  }

  lemma EndsAsWell(c: Core, c1: Core, e: Effect)
    requires c1 == c.(firstApplication := c1.firstApplication)
    ensures Ends(c1, e) ==> Ends(c, e)
  {
    hide CloseIn, CloseText;
  }

  // On a closed core nothing happens any more.

  lemma AtLimitClosed(c: Core, handoff: Handoff)
    requires c.closed
    ensures AtLimit(c, handoff) == Limited(CloseState(c), Plainly(RecordLimit))
  {
  }

  /** A call of the core fails with nothing to send. */
  predicate Refuses<T>(c: Core, out: Out<T>) {
    && out.result.Err? && out.result.error.closeFrame.None?
    && SameOutbound(c, out.core) && out.core.handoff == c.handoff
  }

  lemma FinishedRefused(c: Core, role: byte)
    requires c.closed
    ensures Refuses(c, WriteFinished(c, role))
  {
    hide AtLimit, FinishedPayload, EncodeRecord;
    AtLimitClosed(c, c.handoff);
  }

  lemma ApplicationRefused(c: Core, payload: seq<byte>, cap: nat)
    requires c.closed && cap <= RESPONSE_BYTES
    ensures Refuses(c, WriteApplication(c, payload, cap))
  {
    hide AtLimit, FragmentsFrom, Volume, Plains, SealAll;
    AtLimitClosed(c, c.handoff);
  }

  lemma CloseRefused(c: Core, reason: CloseReason, handoff: Handoff)
    requires c.closed
    ensures Refuses(c, WriteClose(c, reason, handoff))
  {
    hide AtLimit, CloseRecord, Plain;
    AtLimitClosed(c, ConservativeMax(c.handoff, handoff));
  }

  lemma ClosedWrites(role: Role, c: Core, call: Call)
    requires Sound(role, c) && c.closed
    requires call.SendFinished? || call.SendClose? || call.Send?
    ensures Quiet(c, Do(role, c, call)) && Do(role, c, call).failure.Some?
  {
    hide WriteFinished, WriteApplication, WriteClose;
    match call {
      case SendFinished => FinishedRefused(c, WireRole(role));
      case SendClose(reason, handoff) => CloseRefused(c, reason, handoff);
      case Send(payload, opening) =>
        var cap := if role.Target? then RESPONSE_BYTES else REQUEST_BYTES;
        ApplicationRefused(c, payload, cap);
        ApplicationRefused(c.(firstApplication := true), payload, cap);
    }
  }

  lemma ClosedCall(role: Role, c: Core, call: Call)
    requires Sound(role, c) && c.closed
    ensures Quiet(c, Do(role, c, call))
    ensures call.Send? ==> Do(role, c, call).failure.Some?
  {
    hide WriteFinished, WriteApplication, WriteClose, DecodeRecord, ParseFinished, Assemble, PeerClose;
    if call.SendFinished? || call.SendClose? || call.Send? {
      ClosedWrites(role, c, call);
    }
  }

  /** The core refused the frame it was given, without a word. */
  predicate HangsUp(c: Core, e: Effect) {
    Quiet(c, e) && e.core.closed
  }

  // ---- The handshake ---------------------------------------------------

  /** The core once its handshake has produced a transport. */
  function Ready(role: Role, c: Core, key: Bytes32): Core {
    c.(handshake := None, sessionHash := Some(key), transport := Some(Transport(key, role.Target?, 0, 0)))
  }

  lemma HelloCall(c: Core)
    requires Sound(Target, c)
    ensures var e := Do(Target, c, WriteHello);
            || Quiet(c, e)
            || (&& c.handshake.Some? && c.handshake.value.step == 0
                && e.delivered.None?
                && e.core == c.(handshake := Some(c.handshake.value.(step := 1)))
                && e.frames == [Message1(c.handshake.value.ctx, [])])
  {
  }

  lemma HelloWritten(c: Core)
    requires Sound(Target, c) && c.handshake.Some? && c.handshake.value.step == 0
    ensures Do(Target, c, WriteHello) ==
            Effect(c.(handshake := Some(c.handshake.value.(step := 1))), [Message1(c.handshake.value.ctx, [])],
                   None, None)
  {
  }

  lemma ReadHelloTarget(c: Core, frame: Frame, hash: Bytes32)
    requires Sound(Target, c)
    ensures var e := Do(Target, c, ReadHello(frame, hash));
            || HangsUp(c, e)
            || (&& c.handshake.Some? && c.handshake.value.step == 1
                && frame.Message2? && frame.ctx == c.handshake.value.ctx
                && e.frames == [] && e.delivered.None?
                && e.core == Ready(Target, c, frame.hash))
  {
  }

  lemma ReadHelloBroker(c: Core, frame: Frame, hash: Bytes32)
    requires Sound(Broker, c)
    ensures var e := Do(Broker, c, ReadHello(frame, hash));
            || HangsUp(c, e)
            || (&& c.handshake.Some?
                && frame.Message1? && frame.ctx == c.handshake.value.ctx
                && e.delivered.None?
                && e.frames == [Message2(frame.ctx, [], hash)]
                && e.core == Ready(Broker, c, hash))
  {
  }

  // ---- Reading an honest frame -----------------------------------------

  lemma ReadFinishedCall(l: Lane)
    requires Carrying(l) && l.queue != []
    requires Sound(Reader(l), l.r)
    ensures var e := Do(Reader(l), l.r, RecvFinished(l.queue[0]));
            || HangsUp(l.r, e)
            || (&& !l.r.gotFinished && l.s.sentFinished
                && e.frames == [] && e.delivered.None? && e.failure.None?
                && (l.from.Broker? ==> l.r.sentFinished)
                && Flying(l) != []
                && e.core == Took(l.r, Flying(l)[0]).(gotFinished := true))
  {
    hide ReadFinished, FragmentsFrom, Frames, Weight;
    CoreReadsFinished(l);
  }

  function Reader(l: Lane): Role {
    if l.from.Target? then Broker else Target
  }

  /** The Finished in flight is taken, once; any other frame is refused. */
  lemma CoreReadsFinished(l: Lane)
    requires Carrying(l) && l.queue != []
    ensures var out := ReadFinished(l.r, l.queue[0], WireRole(l.from));
            if !l.r.gotFinished && l.s.sentFinished
            then Flying(l) != [] && out == Out(Took(l.r, Flying(l)[0]).(gotFinished := true), Ok(()))
            else Refuses(l.r, out)
  {
    hide ReadRecord, FragmentsFrom, FragmentAt, Frames, Weight, Plain, FinishedPayload, ParseFinished, ClosePayload;
    if !l.r.gotFinished {
      FrontReads(l);
      if l.s.sentFinished {
        var key := l.r.transport.value.key;
        assert Flying(l)[0] == FinishedRecord(l.from, l.r.binding, key);
        FinishedExact(FinishedPayload(l.r.binding, WireRole(l.from), key), l.r.binding, key, WireRole(l.from));
      } else {
        assert Flying(l)[0].kind.Close?;
      }
    }
  }

  /** What the reading role adds once a whole message is out. */
  function Handed(role: Role, c: Core): Core {
    if role.Broker? then c
    else c.(handoff := HandoffPossibleOrConfirmed, firstApplication := true,
            reassembly := c.reassembly.(cap := if c.firstApplication then c.reassembly.cap else REQUEST_BYTES))
  }

  /** The next fragment of a message in flight is opened, counted and assembled. */
  lemma FragmentReads(l: Lane)
    requires Carrying(l) && l.queue != [] && Flowing(l)
    requires l.r.sentFinished && l.r.gotFinished && l.r.peerTurn
    ensures var payload := l.sent[|l.got|];
            var record := FragmentAt(Application, payload, Offset(l));
            var end := ChunkEnd(payload, Offset(l));
            ReadApplication(l.r, l.queue[0]) ==
            if end == |payload| then Out(Fed(l.r, record, None, true), Ok(Some(payload)))
            else Out(Fed(l.r, record, Progress(Application, payload, end), false), Ok(None))
  {
    hide ReadRecord, FragmentsFrom, Flying, Frames, Weight, Assemble, AcceptSpec;
    FrontReads(l);
    FragmentAssembles(l);
  }

  /** Anything but the awaited application ends the session without a word. */
  lemma OtherFrameRefused(l: Lane)
    requires Carrying(l) && l.queue != [] && Sound(Reader(l), l.r)
    requires !Flowing(l) || !l.r.sentFinished || !l.r.gotFinished
    ensures ReadApplication(l.r, l.queue[0]).result.Err?
    ensures HangsUp(l.r, Do(Reader(l), l.r, Recv(l.queue[0])))
  {
    hide ReadApplication, FragmentsFrom, Frames, Weight;
    CoreRefusesOther(l);
  }

  lemma CoreRefusesOther(l: Lane)
    requires Carrying(l) && l.queue != []
    requires !Flowing(l) || !l.r.sentFinished || !l.r.gotFinished
    ensures Refuses(l.r, ReadApplication(l.r, l.queue[0]))
  {
    hide ReadRecord, FragmentsFrom, FragmentAt, Frames, Weight, Plain, FinishedPayload, ParseClose, ClosePayload,
         Assemble;
    if l.r.gotFinished && l.r.sentFinished {
      FrontReads(l);
      assert Flying(l)[0].kind.Close?;
    }
  }

  /** An honest application frame that is awaited is always accepted. */
  lemma ReadApplicationCall(l: Lane)
    requires Carrying(l) && l.queue != [] && Flowing(l)
    requires l.r.sentFinished && l.r.gotFinished && l.r.peerTurn
    ensures var e := Do(Reader(l), l.r, Recv(l.queue[0]));
            var payload := l.sent[|l.got|];
            var record := FragmentAt(Application, payload, Offset(l));
            var end := ChunkEnd(payload, Offset(l));
            && e.frames == [] && e.failure.None?
            && (if end == |payload|
                then e.delivered == Some(payload) && e.core == Handed(Reader(l), Fed(l.r, record, None, true))
                else e.delivered.None? && e.core == Fed(l.r, record, Progress(Application, payload, end), false))
  {
    hide ReadApplication, FragmentsFrom, FragmentAt, Flying, Frames, Weight;
    FragmentReads(l);
  }

  lemma ReadCloseCall(l: Lane)
    requires Carrying(l) && l.queue != [] && Sound(Reader(l), l.r)
    ensures HangsUp(l.r, Do(Reader(l), l.r, RecvClose(l.queue[0])))
  {
    hide ReadRecord, Flying, Frames, Weight, ParseClose;
    FrontReads(l);
  }

  lemma ShakingCall(role: Role, c: Core, call: Call)
    requires Sound(role, c) && c.handshake.Some?
    requires call.RecvFinished? || call.Recv? || call.RecvClose?
    ensures HangsUp(c, Do(role, c, call))
  {
  }

  // ---- What any call does to the two lanes of its core ------------------

  function Noted(close: Option<Closing>, frames: seq<Frame>): Option<Closing> {
    if frames != [] && CloseIn(frames[|frames| - 1]).Some? then CloseIn(frames[|frames| - 1]) else close
  }

  function Grown(log: seq<seq<byte>>, entry: Option<seq<byte>>): seq<seq<byte>> {
    if entry.Some? then log + [entry.value] else log
  }

  function SentBy(call: Call, e: Effect): Option<seq<byte>> {
    if call.Send? && e.failure.None? then Some(call.payload) else None
  }

  predicate Receives(call: Call) {
    call.ReadHello? || call.RecvFinished? || call.Recv? || call.RecvClose?
  }

  /** Nothing but the handshake itself starts with a handshake frame. */
  predicate NoHello(e: Effect) {
    e.frames != [] ==> e.frames[0].Sealed?
  }

  predicate Outcome(role: Role, c: Core, call: Call, e: Effect) {
    && NoHello(e)
    && e.delivered.None?
    && (|| (Quiet(c, e) && SentBy(call, e).None?)
        || (Ends(c, e) && SentBy(call, e).None? && Noted(None, e.frames).Some?)
        || (Finishes(role, c, e) && SentBy(call, e).None? && Noted(None, e.frames).None?
            && (role.Broker? ==> c.gotFinished))
        || (call.Send? && e.failure.None? && Speaks(role, c, call.payload, call.opening, e)
            && Noted(None, e.frames).None?))
  }

  lemma SpokenFrames(t: Transport, payload: seq<byte>)
    requires Sendable(payload)
    ensures var frames := Frames(t, FragmentsFrom(Application, payload, 0));
            && (frames != [] ==> frames[0].Sealed?)
            && Noted(None, frames).None?
  {
    hide Frames, CloseIn;
    FragmentKinds(payload, 0);
    FramesSpeak(t, FragmentsFrom(Application, payload, 0));
  }

  lemma {:induction false} FragmentKinds(payload: seq<byte>, offset: nat)
    requires Sendable(payload) && offset <= |payload|
    ensures forall i :: 0 <= i < |FragmentsFrom(Application, payload, offset)| ==>
                          FragmentsFrom(Application, payload, offset)[i].kind.Application?
    decreases |payload| - offset
  {
    if offset < |payload| {
      FragmentKinds(payload, ChunkEnd(payload, offset));
    }
  }

  lemma FinishedFrame(role: Role, t: Transport, binding: SessionBinding)
    ensures CloseIn(SealFrame(t, Plain(FinishedRecord(role, binding, t.key)))).None?
  {
    hide Plain, DecodeRecord, FinishedPayload;
    PlainFacts(FinishedRecord(role, binding, t.key));
  }

  /** Every call that reads nothing and is not the first handshake message. */
  lemma TalkingCall(role: Role, c: Core, call: Call)
    requires Sound(role, c) && !Receives(call)
    requires call.WriteHello? ==> role.Broker? || c.handshake.None? || c.handshake.value.step != 0
    ensures Outcome(role, c, call, Do(role, c, call))
  {
    hide Do, Sound, CloseIn, CloseText, FragmentsFrom, Frames, Weight, FinishedRecord, Plain;
    var e := Do(role, c, call);
    if c.closed {
      ClosedCall(role, c, call);
    } else if call.WriteHello? && role.Target? {
      HelloCall(c);
    } else if call.SendFinished? {
      FinishedCall(role, c);
      if Finishes(role, c, e) {
        FinishedFrame(role, c.transport.value, c.binding);
      }
    } else if call.Send? {
      MessageCall(role, c, call.payload, call.opening);
      if e.failure.None? {
        SpokenFrames(c.transport.value, call.payload);
      }
    } else {
      EndingCall(role, c, call);
    }
  }

  /** The lane out of the core that made a call. */
  function Said(l: Lane, call: Call, e: Effect): Lane {
    l.(s := e.core, queue := l.queue + e.frames, sent := Grown(l.sent, SentBy(call, e)),
       close := Noted(l.close, e.frames))
  }

  lemma SenderKeeps(l: Lane, call: Call, e: Effect)
    requires Carrying(l) && Sound(l.from, l.s) && Sound(l.from, e.core) && Outcome(l.from, l.s, call, e)
    requires SentBy(call, e).Some? ==> |l.sent| == |l.got| && |call.payload| <= l.r.reassembly.cap
    ensures Carrying(Said(l, call, e))
  {
    hide CloseIn, CloseText, FragmentsFrom, Frames, Weight, FinishedRecord, Plain, Flying;
    if Quiet(l.s, e) {
      LaneUntouched(l, e.core, l.r);
      assert l.queue + [] == l.queue;
    } else if Ends(l.s, e) {
      SenderEnds(l, e.core, CloseIn(e.frames[0]).value);
      assert e.frames == [e.frames[0]];
    } else if Finishes(l.from, l.s, e) {
      SenderFinishesLane(l, call, e);
    } else {
      SenderSpeaks(l, e.core, call.payload);
    }
  }

  lemma SenderFinishesLane(l: Lane, call: Call, e: Effect)
    requires Carrying(l) && Sound(l.from, l.s) && Sound(l.from, e.core) && Finishes(l.from, l.s, e)
    requires SentBy(call, e).None? && Noted(None, e.frames).None?
    ensures Carrying(Said(l, call, e))
  {
    hide CloseIn, CloseText, FragmentsFrom, Frames, Weight, FinishedRecord, Plain, Flying;
    SenderFinishes(l, e.core);
  }

  /** The lane into a core that talks is not disturbed by it. */
  lemma ReceiverTalks(l: Lane, call: Call, e: Effect)
    requires Carrying(l) && Outcome(Reader(l), l.r, call, e) && !e.core.closed
    ensures Carrying(l.(r := e.core))
  {
    hide CloseIn, CloseText, FragmentsFrom, Frames, Weight, FinishedRecord, Plain, Flying;
    LaneUntouched(l, l.s, e.core);
  }

  /** The lane into the core that read its front frame. */
  function Heard(l: Lane, e: Effect): Lane
    requires l.queue != []
  {
    l.(r := e.core, got := Grown(l.got, e.delivered), queue := l.queue[1..])
  }

  /** The core took an honest frame; a delivered message gives it the turn. */
  predicate Accepts(l: Lane, e: Effect) {
    var role, c, c' := Reader(l), l.r, e.core;
    && e.frames == [] && e.failure.None?
    && !c'.closed && SameOutbound(c, c')
    && (e.delivered.Some? ==> Flowing(l) && e.delivered.value == l.sent[|l.got|])
    && c'.peerTurn == (c.peerTurn && e.delivered.None?)
    && c'.firstApplication == (c.firstApplication || (role.Target? && e.delivered.Some?))
    && c'.handoff == (if role.Target? && e.delivered.Some? then HandoffPossibleOrConfirmed else c.handoff)
    && c'.reassembly.cap ==
       (if role.Target? && e.delivered.Some? && !c.firstApplication then REQUEST_BYTES else c.reassembly.cap)
  }

  lemma AcceptsFinished(l: Lane)
    requires Carrying(l) && l.queue != [] && Sound(Reader(l), l.r)
    ensures var e := Do(Reader(l), l.r, RecvFinished(l.queue[0]));
            HangsUp(l.r, e) || (Accepts(l, e) && Carrying(Heard(l, e)))
  {
    hide Do, Sound, FragmentsFrom, FragmentAt, Frames, Weight, FinishedRecord, Plain, Flying;
    ReadFinishedCall(l);
    var e := Do(Reader(l), l.r, RecvFinished(l.queue[0]));
    if !HangsUp(l.r, e) {
      ReceiverTakesFinished(l);
    }
  }

  lemma AcceptsFragment(l: Lane)
    requires Carrying(l) && l.queue != [] && Flowing(l)
    requires l.r.sentFinished && l.r.gotFinished && l.r.peerTurn
    ensures var e := Do(Reader(l), l.r, Recv(l.queue[0])); Accepts(l, e) && Carrying(Heard(l, e))
    ensures var e := Do(Reader(l), l.r, Recv(l.queue[0]));
            e.delivered.Some? <==> ChunkEnd(l.sent[|l.got|], Offset(l)) == |l.sent[|l.got|]|
  {
    hide Do, Sound, FragmentsFrom, FragmentAt, Frames, Weight, FinishedRecord, Plain, Flying;
    ReadApplicationCall(l);
    var e := Do(Reader(l), l.r, Recv(l.queue[0]));
    var payload := l.sent[|l.got|];
    if e.delivered.None? {
      ReceiverTakesFragment(l);
    } else {
      var cap := if l.from.Broker? && !l.r.firstApplication then REQUEST_BYTES else l.r.reassembly.cap;
      ReceiverTakesLast(l, cap);
      HandedIs(l, FragmentAt(Application, payload, Offset(l)), cap);
      HandedLane(Carried(l, payload, cap), e);
    }
  }

  function Carried(l: Lane, payload: seq<byte>, cap: nat): Lane
    requires l.queue != [] && Flowing(l) && l.r.transport.Some? && Sendable(payload) && Offset(l) < |payload|
  {
    var r' := Fed(l.r, FragmentAt(Application, payload, Offset(l)), None, true);
    l.(r := r'.(reassembly := r'.reassembly.(cap := cap)), got := l.got + [payload], queue := l.queue[1..])
  }

  /** The flags the Target raises on a delivery do not touch the lane. */
  lemma HandedLane(l: Lane, e: Effect)
    requires Carrying(l) && SameInbound(l.r, e.core)
    ensures Carrying(l.(r := e.core))
  {
    LaneUntouched(l, l.s, e.core);
  }

  lemma HandedIs(l: Lane, record: Record, cap: nat)
    requires Usable(l.r)
    requires cap == if l.from.Broker? && !l.r.firstApplication then REQUEST_BYTES else l.r.reassembly.cap
    ensures var fed := Fed(l.r, record, None, true);
            var fed' := fed.(reassembly := fed.reassembly.(cap := cap));
            SameInbound(fed', Handed(Reader(l), fed))
  {
  }

  /** Every reading call with the frame an honest peer sent. */
  lemma ReadingCall(l: Lane, call: Call)
    requires Carrying(l) && l.queue != [] && Sound(Reader(l), l.r)
    requires Receives(call) && call.frame == l.queue[0]
    requires Flowing(l) ==> l.r.peerTurn
    ensures var e := Do(Reader(l), l.r, call); HangsUp(l.r, e) || (Accepts(l, e) && Carrying(Heard(l, e)))
  {
    hide Do, Carrying, FragmentsFrom, FragmentAt, Frames, Weight, FinishedRecord, Plain, Flying;
    match call {
      case ReadHello(frame, hash) =>
        if l.from.Target? {
          ReadHelloBroker(l.r, frame, hash);
        } else {
          ReadHelloTarget(l.r, frame, hash);
        }
        TalksNow(l);
      case RecvFinished(_) => AcceptsFinished(l);
      case Recv(_) =>
        if Flowing(l) && l.r.sentFinished && l.r.gotFinished {
          AcceptsFragment(l);
        } else {
          OtherFrameRefused(l);
        }
      case RecvClose(_) => ReadCloseCall(l);
    }
  }

  lemma TalksNow(l: Lane)
    requires Carrying(l) && Sound(Reader(l), l.r)
    ensures l.r.handshake.None?
  {
  }
}
