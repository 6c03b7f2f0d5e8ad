/** An honest Target and an honest Broker over two ordered channels.  Any call
    may be made at any time by either side, in any interleaving; the frames they
    read are the ones the other side wrote, in order. */
module TwoParty {
  import opened Common
  import opened Terms
  import opened Payloads
  import opened Records
  import opened Noise
  import opened Session
  import opened SessionRuns
  import opened Lanes
  import opened Calls

  /** Both cores, both channels, and what has happened so far: handshake
      messages written, payloads sent and delivered, Closes announced. */
  datatype World = World(
    target: Core,
    broker: Core,
    toTarget: seq<Frame>,
    toBroker: seq<Frame>,
    hello: bool,
    answer: Option<Bytes32>,
    asked: seq<seq<byte>>,
    heard: seq<seq<byte>>,
    answered: seq<seq<byte>>,
    received: seq<seq<byte>>,
    targetClose: Option<Closing>,
    brokerClose: Option<Closing>)

  datatype Act = Act(role: Role, call: Call)

  function CoreOf(w: World, role: Role): Core {
    if role.Target? then w.target else w.broker
  }

  function Incoming(w: World, role: Role): seq<Frame> {
    if role.Target? then w.toTarget else w.toBroker
  }

  predicate Enabled(w: World, act: Act) {
    Receives(act.call) ==> Incoming(w, act.role) != [] && act.call.frame == Incoming(w, act.role)[0]
  }

  /** What the world becomes when the Target makes a call with this effect. */
  function TargetActs(w: World, call: Call, e: Effect): World
    requires Receives(call) ==> w.toTarget != []
  {
    w.(target := e.core,
       toTarget := w.toTarget[if Receives(call) then 1 else 0..],
       toBroker := w.toBroker + e.frames,
       hello := w.hello || (e.frames != [] && e.frames[0].Message1?),
       answered := Grown(w.answered, SentBy(call, e)),
       heard := Grown(w.heard, e.delivered),
       targetClose := Noted(w.targetClose, e.frames))
  }

  function BrokerActs(w: World, call: Call, e: Effect): World
    requires Receives(call) ==> w.toBroker != []
  {
    w.(broker := e.core,
       toBroker := w.toBroker[if Receives(call) then 1 else 0..],
       toTarget := w.toTarget + e.frames,
       answer := if e.frames != [] && e.frames[0].Message2? then Some(e.frames[0].hash) else w.answer,
       asked := Grown(w.asked, SentBy(call, e)),
       received := Grown(w.received, e.delivered),
       brokerClose := Noted(w.brokerClose, e.frames))
  }

  function Next(w: World, act: Act): World
    requires Enabled(w, act)
  {
    var e := Do(act.role, CoreOf(w, act.role), act.call);
    if act.role.Target? then TargetActs(w, act.call, e) else BrokerActs(w, act.call, e)
  }

  ghost predicate Reaches(w: World, acts: seq<Act>, end: World)
    decreases |acts|
  {
    if acts == [] then end == w
    else Enabled(w, acts[0]) && Reaches(Next(w, acts[0]), acts[1..], end)
  }

  function StartWorld(target: Core, broker: Core): World {
    World(target, broker, [], [], false, None, [], [], [], [], None, None)
  }

  // ---- The invariant ---------------------------------------------------

  function Requests(w: World): Lane {
    Lane(Broker, w.broker, w.target, w.toTarget, w.asked, w.heard, w.brokerClose)
  }

  function Responses(w: World): Lane {
    Lane(Target, w.target, w.broker, w.toBroker, w.answered, w.received, w.targetClose)
  }

  /** The lane to a Target that has yet to read the answer at its front. */
  function Awaiting(w: World): Lane
    requires w.answer.Some? && w.toTarget != []
  {
    Requests(w).(r := Ready(Target, w.target, w.answer.value), queue := w.toTarget[1..])
  }

  predicate Inbound(w: World) {
    w.target.closed ||
    if Usable(w.target) then Carrying(Requests(w))
    else if w.answer.None? then w.toTarget == []
    else
      && w.target.handshake.Some? && w.toTarget != []
      && w.toTarget[0] == Message2(w.target.handshake.value.ctx, [], w.answer.value)
      && Carrying(Awaiting(w))
  }

  predicate Outbound(w: World) {
    w.broker.closed ||
    if Usable(w.broker) then Carrying(Responses(w))
    else if !w.hello then w.toBroker == []
    else
      && |w.toBroker| == 1 && w.toBroker[0].Message1?
      && w.toBroker[0].ctx.binding == w.target.binding && w.toBroker[0].payload == []
      && (w.target.handshake.Some? ==> w.target.handshake.value.ctx == w.toBroker[0].ctx)
  }

  predicate Blank(c: Core) {
    !c.sentFinished && c.sentRecords == c.sentPlaintext == 0
  }

  predicate Greeted(w: World) {
    && (w.answer.None? ==>
          && Blank(w.target) && Blank(w.broker) && !Usable(w.target) && !Usable(w.broker)
          && w.asked == [] && w.answered == [] && w.targetClose.None? && w.brokerClose.None?)
    && (w.answer.Some? ==> w.hello && w.target.binding == w.broker.binding && w.broker.handshake.None?)
    && (Usable(w.target) ==> w.answer == Some(w.target.transport.value.key))
    && (Usable(w.broker) ==> w.answer == Some(w.broker.transport.value.key))
    && (w.target.handshake.Some? ==> w.target.handshake.value.step == if w.hello then 1 else 0)
    && (w.asked != [] ==> w.target.sentFinished && w.broker.sentFinished)
  }

  predicate Turns(w: World) {
    && w.heard <= w.asked && w.received <= w.answered
    && |w.received| <= |w.answered| <= |w.heard| <= |w.asked| <= |w.received| + 1
  }

  predicate TargetTurn(w: World) {
    !w.target.closed ==>
      && (w.target.peerTurn <==> |w.heard| == |w.answered|)
      && (w.target.firstApplication <==> w.heard != [])
      && w.target.reassembly.cap == (if w.heard == [] then FIRST_OPEN_BYTES else REQUEST_BYTES)
  }

  predicate BrokerTurn(w: World) {
    !w.broker.closed ==>
      && (w.broker.peerTurn <==> |w.asked| > |w.received|)
      && (w.broker.firstApplication <==> w.asked != [])
      && w.broker.reassembly.cap == RESPONSE_BYTES
  }

  /** Who may have acted on what: a Close that denies a hand-off was sent by a
      side that had not taken part in one. */
  predicate Admits(w: World) {
    && (w.heard != [] ==> w.target.handoff.HandoffPossibleOrConfirmed?)
    && (w.asked != [] ==> w.broker.handoff.HandoffPossibleOrConfirmed?)
    && (w.targetClose.Some? ==> w.target.closed)
    && (w.brokerClose.Some? ==> w.broker.closed)
    && (w.targetClose.Some? && w.targetClose.value.handoff.NotHandedOff? ==> w.heard == [])
    && (w.brokerClose.Some? && w.brokerClose.value.handoff.NotHandedOff? ==> w.asked == [])
  }

  predicate Flags(w: World) {
    Greeted(w) && Turns(w) && TargetTurn(w) && BrokerTurn(w) && Admits(w)
  }

  predicate Inv(w: World) {
    && Sound(Target, w.target) && Sound(Broker, w.broker)
    && Flags(w)
    && Inbound(w) && Outbound(w)
  }

  lemma StartInv(bindingT: SessionBinding, pskT: Bytes32, bindingB: SessionBinding, pskB: Bytes32,
                 target: Core, broker: Core)
    requires NewTarget(bindingT, pskT) == Ok(target) && NewBroker(bindingB, pskB) == Ok(broker)
    ensures Inv(StartWorld(target, broker))
  {
  }

  // ---- The Target acts -------------------------------------------------

  /** The Target falls silent for good, whatever was still on its way. */
  lemma TargetStops(w: World, call: Call, e: Effect)
    requires Inv(w) && HangsUp(w.target, e) && SentBy(call, e).None? && Sound(Target, e.core)
    requires Receives(call) ==> w.toTarget != []
    ensures Inv(TargetActs(w, call, e))
  {
    hide Carrying, Flags;
    TargetStopFlags(w, call, e);
    if Usable(w.broker) {
      ResponsesTalk(w);
      LaneUntouched(Responses(w), e.core, w.broker);
    }
    assert w.toBroker + [] == w.toBroker;
  }

  lemma TargetStopFlags(w: World, call: Call, e: Effect)
    requires Flags(w) && HangsUp(w.target, e) && SentBy(call, e).None? && Sound(Target, e.core)
    requires Receives(call) ==> w.toTarget != []
    ensures Flags(TargetActs(w, call, e))
  {
  }

  lemma ResponsesTalk(w: World)
    requires Inv(w) && Usable(w.broker)
    ensures Carrying(Responses(w)) && SameInbound(w.broker, w.broker)
  {
  }

  /** Only a side that everybody has caught up with can speak, and its message
      fits the other side's cap. */
  lemma TargetMaySpeak(w: World, call: Call, e: Effect)
    requires Flags(w) && Outcome(Target, w.target, call, e) && SentBy(call, e).Some? && !w.broker.closed
    ensures |w.answered| == |w.received| && |call.payload| <= w.broker.reassembly.cap
  {
  }

  lemma TargetFlags(w: World, call: Call, e: Effect)
    requires Flags(w) && Outcome(Target, w.target, call, e) && Sound(Target, w.target) && Sound(Target, e.core)
    requires !Receives(call)
    ensures Flags(TargetActs(w, call, e))
  {
    hide FragmentsFrom, Frames, Weight, FinishedRecord, Plain, CloseIn, CloseText;
  }

  lemma TargetTalksOut(w: World, call: Call, e: Effect)
    requires Inv(w) && Outcome(Target, w.target, call, e) && Sound(Target, e.core)
    requires !Receives(call)
    ensures Outbound(TargetActs(w, call, e))
  {
    hide Carrying, Turns, BrokerTurn, TargetTurn, Admits;
    if Usable(w.broker) {
      if SentBy(call, e).Some? {
        TargetMaySpeak(w, call, e);
      }
      SenderKeeps(Responses(w), call, e);
    } else if !w.broker.closed {
      assert Quiet(w.target, e);
      assert w.toBroker + [] == w.toBroker;
    }
  }

  lemma TargetTalksIn(w: World, call: Call, e: Effect)
    requires Inv(w) && Outcome(Target, w.target, call, e)
    requires !Receives(call)
    ensures Inbound(TargetActs(w, call, e))
  {
    hide Carrying, Turns, BrokerTurn, TargetTurn, Admits;
    if Usable(w.target) {
      if !e.core.closed {
        ReceiverTalks(Requests(w), call, e);
      }
    } else {
      assert Quiet(w.target, e);
    }
  }

  /** The Target says something, or nothing, without reading. */
  lemma TargetTalks(w: World, call: Call, e: Effect)
    requires Inv(w) && Outcome(Target, w.target, call, e) && Sound(Target, e.core)
    requires !Receives(call)
    ensures Inv(TargetActs(w, call, e))
  {
    hide Carrying, Flags, Inbound, Outbound, Outcome;
    TargetFlags(w, call, e);
    TargetTalksOut(w, call, e);
    TargetTalksIn(w, call, e);
  }

  /** The first handshake message. */
  lemma TargetGreets(w: World, call: Call, e: Effect)
    requires Inv(w) && call.WriteHello? && Sound(Target, e.core)
    requires w.target.handshake.Some? && w.target.handshake.value.step == 0
    requires e.delivered.None?
    requires e.core == w.target.(handshake := Some(w.target.handshake.value.(step := 1)))
    requires e.frames == [Message1(w.target.handshake.value.ctx, [])]
    ensures Inv(TargetActs(w, call, e))
  {
    hide Carrying;
    assert w.answer.None?;
  }

  /** The second handshake message opens the Target's end. */
  lemma TargetGreeted(w: World, call: Call, e: Effect)
    requires Inv(w) && call.ReadHello? && Sound(Target, e.core)
    requires w.toTarget != [] && w.toTarget[0].Message2?
    requires w.target.handshake.Some?
    requires e.frames == [] && e.delivered.None?
    requires e.core == Ready(Target, w.target, w.toTarget[0].hash)
    ensures Inv(TargetActs(w, call, e))
  {
    hide Carrying;
    assert w.answer.Some?;
    assert Requests(TargetActs(w, call, e)) == Awaiting(w);
    assert w.toBroker + [] == w.toBroker;
    if Usable(w.broker) {
      SenderReady(Responses(w), e.core);
      assert Responses(TargetActs(w, call, e)) == Responses(w).(s := e.core);
    }
  }

  lemma TargetTurnsToRead(w: World)
    requires Flags(w) && !w.target.closed && Flowing(Requests(w))
    ensures w.target.peerTurn
  {
  }

  lemma TargetAcceptFlags(w: World, call: Call, e: Effect)
    requires Flags(w) && w.toTarget != [] && Receives(call) && !w.target.closed
    requires Accepts(Requests(w), e) && Sound(Target, w.target) && Sound(Target, e.core)
    requires Usable(w.target) && Usable(e.core)
    ensures Flags(TargetActs(w, call, e))
  {
  }

  /** The Target takes the next frame. */
  lemma TargetAccepts(w: World, call: Call, e: Effect)
    requires Inv(w) && w.toTarget != [] && Receives(call) && Usable(w.target) && Sound(Target, e.core)
    requires Accepts(Requests(w), e) && Carrying(Heard(Requests(w), e))
    ensures Inv(TargetActs(w, call, e))
  {
    hide Carrying, Flags;
    AcceptsOpen(Requests(w), e);
    TargetAcceptFlags(w, call, e);
    assert w.toBroker + [] == w.toBroker;
    var w' := TargetActs(w, call, e);
    assert Requests(w') == Heard(Requests(w), e);
    if Usable(w.broker) {
      LaneUntouched(Responses(w), e.core, w.broker);
      assert Responses(w') == Responses(w).(s := e.core);
    }
  }

  /** Accepting keeps the core open. */
  lemma AcceptsOpen(l: Lane, e: Effect)
    requires l.queue != [] && Accepts(l, e) && Carrying(Heard(l, e))
    ensures Usable(e.core)
  {
  }

  lemma TargetReads(w: World, call: Call)
    requires Inv(w) && Receives(call) && w.toTarget != [] && call.frame == w.toTarget[0]
    requires !w.target.closed
    ensures Inv(TargetActs(w, call, Do(Target, w.target, call)))
  {
    hide Do, Carrying, Flags, Outbound;
    var e := Do(Target, w.target, call);
    CallKeepsSound(Target, w.target, call);
    if w.target.handshake.Some? {
      if call.ReadHello? {
        ReadHelloTarget(w.target, call.frame, call.hash);
        if !HangsUp(w.target, e) {
          TargetGreeted(w, call, e);
          return;
        }
      } else {
        ShakingCall(Target, w.target, call);
      }
      TargetStops(w, call, e);
    } else {
      if Flowing(Requests(w)) {
        TargetTurnsToRead(w);
      }
      ReadingCall(Requests(w), call);
      if HangsUp(w.target, e) {
        TargetStops(w, call, e);
      } else {
        TargetAccepts(w, call, e);
      }
    }
  }

  lemma TargetStep(w: World, call: Call)
    requires Inv(w) && Enabled(w, Act(Target, call))
    ensures Inv(TargetActs(w, call, Do(Target, w.target, call)))
  {
    hide Do, Carrying, Flags, Outbound, Inbound, Outcome;
    var e := Do(Target, w.target, call);
    CallKeepsSound(Target, w.target, call);
    if Receives(call) {
      if w.target.closed {
        ClosedCall(Target, w.target, call);
        TargetStops(w, call, e);
      } else {
        TargetReads(w, call);
      }
    } else if call.WriteHello? && w.target.handshake.Some? && w.target.handshake.value.step == 0 {
      HelloWritten(w.target);
      TargetGreets(w, call, e);
    } else {
      TalkingCall(Target, w.target, call);
      TargetTalks(w, call, e);
    }
  }

  // ---- The Broker acts -------------------------------------------------

  /** The Broker falls silent for good. */
  lemma BrokerStops(w: World, call: Call, e: Effect)
    requires Inv(w) && HangsUp(w.broker, e) && SentBy(call, e).None? && Sound(Broker, e.core)
    requires Receives(call) ==> w.toBroker != []
    ensures Inv(BrokerActs(w, call, e))
  {
    hide Carrying, Outbound, Flags;
    BrokerStopFlags(w, call, e);
    AnsweredIs(w);
    assert w.toTarget + [] == w.toTarget;
    assert Outbound(BrokerActs(w, call, e)) by { BrokerGone(w, call, e); }
    if !w.target.closed && w.answer.Some? {
      RequestsTalk(w);
      if Usable(w.target) {
        LaneUntouched(Requests(w), e.core, w.target);
      } else {
        LaneUntouched(Awaiting(w), e.core, Awaiting(w).r);
        assert Awaiting(BrokerActs(w, call, e)) == Awaiting(w).(s := e.core);
      }
    }
  }

  lemma BrokerStopFlags(w: World, call: Call, e: Effect)
    requires Flags(w) && HangsUp(w.broker, e) && SentBy(call, e).None? && Sound(Broker, e.core)
    requires Receives(call) ==> w.toBroker != []
    ensures Flags(BrokerActs(w, call, e))
  {
  }

  lemma AnsweredIs(w: World)
    requires Flags(w)
    ensures Usable(w.target) ==> w.answer.Some?
  {
  }

  lemma BrokerGone(w: World, call: Call, e: Effect)
    requires e.core.closed
    requires Receives(call) ==> w.toBroker != []
    ensures Outbound(BrokerActs(w, call, e))
  {
  }

  lemma RequestsTalk(w: World)
    requires Inv(w) && !w.target.closed && w.answer.Some?
    ensures var l := if Usable(w.target) then Requests(w) else Awaiting(w);
            Carrying(l) && SameInbound(l.r, l.r)
  {
  }

  lemma BrokerMaySpeak(w: World, call: Call, e: Effect)
    requires Flags(w) && Outcome(Broker, w.broker, call, e) && SentBy(call, e).Some? && !w.target.closed
    ensures |w.asked| == |w.heard| && |call.payload| <= w.target.reassembly.cap
  {
  }

  lemma BrokerFlags(w: World, call: Call, e: Effect)
    requires Inv(w) && Outcome(Broker, w.broker, call, e) && Sound(Broker, e.core)
    requires !Receives(call)
    ensures Flags(BrokerActs(w, call, e))
  {
    hide FragmentsFrom, Frames, Weight, FinishedRecord, Plain, CloseIn, CloseText, Flying, Inbound;
  }

  lemma BrokerTalksOut(w: World, call: Call, e: Effect)
    requires Inv(w) && Outcome(Broker, w.broker, call, e) && Sound(Broker, e.core)
    requires !Receives(call)
    ensures Inbound(BrokerActs(w, call, e))
  {
    hide Carrying, Turns, BrokerTurn, TargetTurn, Admits, Flying, Weight, Frames, Outbound, CloseIn;
    if !w.target.closed {
      if w.answer.Some? {
        if SentBy(call, e).Some? {
          BrokerMaySpeak(w, call, e);
        }
        if Usable(w.target) {
          SenderKeeps(Requests(w), call, e);
        } else {
          BrokerTalksEarly(w, call, e);
        }
      } else {
        assert Quiet(w.broker, e);
        assert w.toTarget + [] == w.toTarget;
      }
    }
  }

  /** The Target has not yet read the answer. */
  lemma BrokerTalksEarly(w: World, call: Call, e: Effect)
    requires Inv(w) && Outcome(Broker, w.broker, call, e) && Sound(Broker, e.core)
    requires !w.target.closed && !Usable(w.target) && w.answer.Some?
    requires SentBy(call, e).Some? ==> |w.asked| == |w.heard| && |call.payload| <= w.target.reassembly.cap
    requires !Receives(call)
    ensures Inbound(BrokerActs(w, call, e))
  {
    hide Carrying, Flags, Outcome, Outbound, CloseIn;
    SenderKeeps(Awaiting(w), call, e);
    var w' := BrokerActs(w, call, e);
    assert NoHello(e) by { SealedFirst(w.broker, call, e); }
    assert w'.toTarget[1..] == w.toTarget[1..] + e.frames;
    assert Awaiting(w') == Said(Awaiting(w), call, e);
  }

  lemma SealedFirst(c: Core, call: Call, e: Effect)
    requires Outcome(Broker, c, call, e)
    ensures NoHello(e) && e.delivered.None?
  {
  }

  lemma BrokerTalksIn(w: World, call: Call, e: Effect)
    requires Inv(w) && Outcome(Broker, w.broker, call, e)
    requires !Receives(call)
    ensures Outbound(BrokerActs(w, call, e))
  {
    hide Carrying, Turns, BrokerTurn, TargetTurn, Admits;
    if Usable(w.broker) {
      if !e.core.closed {
        ReceiverTalks(Responses(w), call, e);
      }
    } else {
      assert Quiet(w.broker, e);
    }
  }

  /** The Broker says something, or nothing, without reading. */
  lemma BrokerTalks(w: World, call: Call, e: Effect)
    requires Inv(w) && Outcome(Broker, w.broker, call, e) && Sound(Broker, e.core)
    requires !Receives(call)
    ensures Inv(BrokerActs(w, call, e))
  {
    hide Carrying, Flags, Inbound, Outbound, Outcome;
    BrokerFlags(w, call, e);
    BrokerTalksOut(w, call, e);
    BrokerTalksIn(w, call, e);
  }

  /** The Broker answers the first handshake message, and is ready. */
  lemma BrokerAnswers(w: World, call: Call, e: Effect)
    requires Inv(w) && call.ReadHello? && w.toBroker != [] && call.frame == w.toBroker[0]
    requires w.broker.handshake.Some? && Sound(Broker, e.core)
    requires call.frame.Message1? && call.frame.ctx == w.broker.handshake.value.ctx
    requires e.delivered.None? && e.frames == [Message2(call.frame.ctx, [], call.hash)]
    requires e.core == Ready(Broker, w.broker, call.hash)
    ensures Inv(BrokerActs(w, call, e))
  {
    hide Carrying, Flags;
    BrokerAnswersFlags(w, call, e);
    var w' := BrokerActs(w, call, e);
    assert w'.toBroker == [];
    BrokerFirst(w);
    LaneStarts(Responses(w'));
    if !w.target.closed {
      assert w'.toTarget == e.frames;
      LaneStarts(Awaiting(w'));
    }
  }

  lemma BrokerAnswersFlags(w: World, call: Call, e: Effect)
    requires Inv(w) && call.ReadHello? && w.toBroker != [] && call.frame == w.toBroker[0]
    requires w.broker.handshake.Some? && Sound(Broker, e.core)
    requires call.frame.Message1? && call.frame.ctx == w.broker.handshake.value.ctx
    requires e.delivered.None? && e.frames == [Message2(call.frame.ctx, [], call.hash)]
    requires e.core == Ready(Broker, w.broker, call.hash)
    ensures Flags(BrokerActs(w, call, e))
  {
    hide Carrying;
  }

  lemma BrokerFirst(w: World)
    requires Inv(w) && w.broker.handshake.Some?
    ensures w.answer.None? && Blank(w.target) && Blank(w.broker) && !Usable(w.target)
    ensures w.asked == [] && w.heard == [] && w.answered == [] && w.received == []
    ensures w.targetClose.None? && w.brokerClose.None?
    ensures !w.target.closed ==> w.toTarget == []
  {
    hide Carrying;
  }

  lemma BrokerTurnsToRead(w: World)
    requires Flags(w) && !w.broker.closed && Flowing(Responses(w))
    ensures w.broker.peerTurn
  {
  }

  lemma BrokerAcceptFlags(w: World, call: Call, e: Effect)
    requires Flags(w) && w.toBroker != [] && Receives(call)
    requires Accepts(Responses(w), e) && Sound(Broker, w.broker) && Sound(Broker, e.core)
    requires Usable(w.broker) && Usable(e.core)
    ensures Flags(BrokerActs(w, call, e))
  {
  }

  /** The Broker takes the next frame. */
  lemma BrokerAccepts(w: World, call: Call, e: Effect)
    requires Inv(w) && w.toBroker != [] && Receives(call) && Usable(w.broker) && Sound(Broker, e.core)
    requires Accepts(Responses(w), e) && Carrying(Heard(Responses(w), e))
    ensures Inv(BrokerActs(w, call, e))
  {
    hide Carrying, Flags;
    AcceptsOpen(Responses(w), e);
    BrokerAcceptFlags(w, call, e);
    assert w.toTarget + [] == w.toTarget;
    var w' := BrokerActs(w, call, e);
    assert Responses(w') == Heard(Responses(w), e);
    BrokerAnswered(w);
    if !w.target.closed {
      var l := if Usable(w.target) then Requests(w) else Awaiting(w);
      RequestsTalk(w);
      LaneUntouched(l, e.core, l.r);
      assert (if Usable(w.target) then Requests(w') else Awaiting(w')) == l.(s := e.core);
    }
  }

  lemma BrokerAnswered(w: World)
    requires Flags(w) && Usable(w.broker)
    ensures w.answer.Some?
  {
  }

  lemma BrokerReads(w: World, call: Call)
    requires Inv(w) && Receives(call) && w.toBroker != [] && call.frame == w.toBroker[0]
    requires !w.broker.closed
    ensures Inv(BrokerActs(w, call, Do(Broker, w.broker, call)))
  {
    hide Do, Carrying, Flags, Inbound;
    var e := Do(Broker, w.broker, call);
    CallKeepsSound(Broker, w.broker, call);
    if w.broker.handshake.Some? {
      if call.ReadHello? {
        ReadHelloBroker(w.broker, call.frame, call.hash);
        if !HangsUp(w.broker, e) {
          BrokerAnswers(w, call, e);
          return;
        }
      } else {
        ShakingCall(Broker, w.broker, call);
      }
      BrokerStops(w, call, e);
    } else {
      if Flowing(Responses(w)) {
        BrokerTurnsToRead(w);
      }
      ReadingCall(Responses(w), call);
      if HangsUp(w.broker, e) {
        BrokerStops(w, call, e);
      } else {
        BrokerAccepts(w, call, e);
      }
    }
  }

  lemma BrokerStep(w: World, call: Call)
    requires Inv(w) && Enabled(w, Act(Broker, call))
    ensures Inv(BrokerActs(w, call, Do(Broker, w.broker, call)))
  {
    hide Do, Carrying, Flags, Outbound, Inbound, Outcome;
    var e := Do(Broker, w.broker, call);
    CallKeepsSound(Broker, w.broker, call);
    if Receives(call) {
      if w.broker.closed {
        ClosedCall(Broker, w.broker, call);
        BrokerStops(w, call, e);
      } else {
        BrokerReads(w, call);
      }
    } else {
      TalkingCall(Broker, w.broker, call);
      BrokerTalks(w, call, e);
    }
  }

  // ---- Over whole runs -------------------------------------------------

  lemma StepInv(w: World, act: Act)
    requires Inv(w) && Enabled(w, act)
    ensures Inv(Next(w, act))
  {
    hide Inv, Do, TargetActs, BrokerActs;
    if act.role.Target? {
      TargetStep(w, act.call);
    } else {
      BrokerStep(w, act.call);
    }
  }

  lemma {:induction false} ReachableInv(w: World, acts: seq<Act>, end: World)
    requires Inv(w) && Reaches(w, acts, end)
    ensures Inv(end)
    decreases |acts|
  {
    hide Inv, Next, Enabled;
    if acts != [] {
      StepInv(w, acts[0]);
      ReachableInv(Next(w, acts[0]), acts[1..], end);
    }
  }

  /** A run of the two honest sides, whatever bindings and keys they were given. */
  ghost predicate Reachable(w: World) {
    exists bindingT: SessionBinding, pskT: Bytes32, bindingB: SessionBinding, pskB: Bytes32, acts: seq<Act> ::
      Starting(bindingT, pskT, bindingB, pskB, acts, w)
  }

  ghost predicate Starting(bindingT: SessionBinding, pskT: Bytes32, bindingB: SessionBinding, pskB: Bytes32,
                           acts: seq<Act>, w: World) {
    var target, broker := NewTarget(bindingT, pskT), NewBroker(bindingB, pskB);
    target.Ok? && broker.Ok? && Reaches(StartWorld(target.value, broker.value), acts, w)
  }

  lemma ReachableIsInv(w: World)
    requires Reachable(w)
    ensures Inv(w)
  {
    hide Inv, Reaches;
    var bindingT: SessionBinding, pskT: Bytes32, bindingB: SessionBinding, pskB: Bytes32, acts: seq<Act> :|
      Starting(bindingT, pskT, bindingB, pskB, acts, w);
    var target, broker := NewTarget(bindingT, pskT).value, NewBroker(bindingB, pskB).value;
    StartInv(bindingT, pskT, bindingB, pskB, target, broker);
    ReachableInv(StartWorld(target, broker), acts, w);
  }

  /** What each side delivers is a prefix of what the other sent, requests and
      responses strictly alternate, and the turn is never held twice. */
  lemma PrefixAndAlternation(w: World)
    requires Reachable(w)
    ensures w.heard <= w.asked && w.received <= w.answered
    ensures |w.received| <= |w.answered| <= |w.heard| <= |w.asked| <= |w.received| + 1
    ensures !w.target.closed && !w.broker.closed ==> w.target.peerTurn || w.broker.peerTurn
  {
    hide Inbound, Outbound, Sound, Greeted, Admits;
    ReachableIsInv(w);
  }

  /** Two sides that both finished the handshake agree on the binding and the
      transcript, whatever each was configured with. */
  lemma BothTalkingAgree(w: World)
    requires Reachable(w) && Usable(w.target) && Usable(w.broker)
    ensures w.target.binding == w.broker.binding
    ensures w.target.transport.value.key == w.broker.transport.value.key
    ensures w.answer == Some(w.target.transport.value.key)
  {
    hide Inbound, Outbound, Sound, Turns, TargetTurn, BrokerTurn, Admits;
    ReachableIsInv(w);
  }

  /** Once the Target has delivered an application, whichever Close either side
      has sent or will send admits that the hand-off may have happened. */
  lemma CloseTellsHandoff(w: World)
    requires Reachable(w)
    ensures w.heard != [] && w.targetClose.Some? ==> w.targetClose.value.handoff.HandoffPossibleOrConfirmed?
    ensures w.heard != [] && w.brokerClose.Some? ==> w.brokerClose.value.handoff.HandoffPossibleOrConfirmed?
  {
    hide Inbound, Outbound, Sound, Greeted;
    ReachableIsInv(w);
  }

  predicate CarriesApplication(frame: Frame) {
    frame.Sealed? && DecodeRecord(frame.plaintext).Ok? && DecodeRecord(frame.plaintext).value.kind.Application?
  }

  function SentTo(w: World, role: Role): seq<seq<byte>> {
    if role.Target? then w.asked else w.answered
  }

  function TakenBy(w: World, role: Role): seq<seq<byte>> {
    if role.Target? then w.heard else w.received
  }

  /** An open side never rejects an honest application frame, even when the
      sender has closed since: it stores a fragment, or delivers exactly the
      next message. */
  lemma HonestApplicationAccepted(w: World, role: Role)
    requires Reachable(w)
    requires Usable(CoreOf(w, role)) && Incoming(w, role) != [] && CarriesApplication(Incoming(w, role)[0])
    ensures var e := Do(role, CoreOf(w, role), Recv(Incoming(w, role)[0]));
            && e.failure.None? && !e.core.closed
            && |TakenBy(w, role)| < |SentTo(w, role)|
            && (e.delivered.Some? ==> e.delivered.value == SentTo(w, role)[|TakenBy(w, role)|])
  {
    hide Do, Flags, Carrying, Sound, CarriesApplication;
    ReachableIsInv(w);
    var l := if role.Target? then Requests(w) else Responses(w);
    var c := CoreOf(w, role);
    ApplicationInFront(l);
    HasSpoken(w);
    if role.Target? {
      TargetTurnsToRead(w);
    } else {
      BrokerTurnsToRead(w);
    }
    AcceptsFragment(l);
  }

  lemma HasSpoken(w: World)
    requires Flags(w)
    ensures w.asked != [] || w.answered != [] ==> w.target.sentFinished && w.broker.sentFinished
  {
  }

  lemma ApplicationInFront(l: Lane)
    requires Carrying(l) && l.queue != [] && CarriesApplication(l.queue[0])
    ensures Flowing(l) && l.r.gotFinished
  {
    hide FragmentsFrom, Frames, Weight, EncodeRecord, DecodeRecord;
    FrontReads(l);
    FrontDecodes(l.r, l.queue[0]);
  }

  lemma FrontDecodes(c: Core, frame: Frame)
    requires CarriesApplication(frame) && ReadRecord(c, frame).result.Ok?
    ensures ReadRecord(c, frame).result.value.kind.Application?
  {
    hide AtLimit, DecodeRecord;
  }
}
