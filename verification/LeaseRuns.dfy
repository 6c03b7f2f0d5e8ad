/** An honest Target and an honest Broker over a lease: any call at any time on
    either side, in any interleaving, over two ordered channels. */
module LeaseRuns {
  import opened Common
  import opened Terms
  import opened Payloads
  import opened Records
  import opened Noise
  import opened Session
  import opened Lease
  import opened LeasePair
  import SessionRuns

  /** Both ends, both channels, and the counters asked, taken, replied and
      returned so far. */
  datatype World = World(
    target: LeaseState,
    broker: LeaseState,
    toTarget: seq<Frame>,
    toBroker: seq<Frame>,
    asked: seq<u64>,
    taken: seq<u64>,
    replied: seq<u64>,
    returned: seq<u64>,
    targetClose: Option<Closing>,
    brokerClose: Option<Closing>)

  datatype Act = Act(role: Role, call: LeaseCall)

  predicate Reading(call: LeaseCall) {
    call.TakeRequest? || call.TakeReply? || call.TakeBye?
  }

  predicate Enabled(w: World, act: Act) {
    var queue := if act.role.Target? then w.toTarget else w.toBroker;
    && (if act.role.Target? then !act.call.Ask? && !act.call.TakeReply? else !act.call.Reply? && !act.call.TakeRequest?)
    && (Reading(act.call) ==> queue != [] && act.call.frame == queue[0])
  }

  function Plus(log: seq<u64>, entry: Option<u64>): seq<u64> {
    if entry.Some? then log + [entry.value] else log
  }

  function TargetActs(w: World, call: LeaseCall, e: LeaseEffect): World
    requires Reading(call) ==> w.toTarget != []
  {
    w.(target := e.state,
       toTarget := w.toTarget[if Reading(call) then 1 else 0..],
       toBroker := w.toBroker + e.frames,
       taken := Plus(w.taken, e.taken),
       replied := if call.Reply? && e.failure.None? then w.replied + [call.counter] else w.replied,
       targetClose := Noted(w.targetClose, e.frames))
  }

  function BrokerActs(w: World, call: LeaseCall, e: LeaseEffect): World
    requires Reading(call) ==> w.toBroker != []
  {
    w.(broker := e.state,
       toBroker := w.toBroker[if Reading(call) then 1 else 0..],
       toTarget := w.toTarget + e.frames,
       returned := Plus(w.returned, e.taken),
       asked := if call.Ask? && e.failure.None? then w.asked + [call.counter] else w.asked,
       brokerClose := Noted(w.brokerClose, e.frames))
  }

  function Next(w: World, act: Act): World
    requires Enabled(w, act)
  {
    if act.role.Target? then TargetActs(w, act.call, LeaseDo(w.target, act.call))
    else BrokerActs(w, act.call, LeaseDo(w.broker, act.call))
  }

  ghost predicate Reaches(w: World, acts: seq<Act>, end: World)
    decreases |acts|
  {
    if acts == [] then end == w
    else Enabled(w, acts[0]) && Reaches(Next(w, acts[0]), acts[1..], end)
  }

  /** The acknowledgement has been sent and read. */
  function StartWorld(key: Bytes32, ack: BootstrapAck): World {
    PlainFacts(AckRecord(ack));
    var size := |Plain(AckRecord(ack))|;
    World(
      LeaseState(Some(Transport(key, true, 1, 0)), BindingOf(ack), false, 1, size, 0, 0, None, 0),
      LeaseState(Some(Transport(key, false, 0, 1)), BindingOf(ack), false, 0, 0, 1, size, None, 0),
      [], [], [], [], [], [], None, None)
  }

  /** The bootstrap leads there: the Broker accepts the Target's acknowledgement. */
  lemma AckHandsOver(key: Bytes32, ack: BootstrapAck, binding: BootstrapBinding, hash: Bytes32)
    requires Acknowledges(ack, binding, hash)
    ensures var (frame, target) := WriteAck(Transport(key, true, 0, 0), ack);
            && target == StartWorld(key, ack).target
            && ReadAck(Transport(key, false, 0, 0), binding, hash, frame) == Ok(Acked(ack, StartWorld(key, ack).broker))
  {
    hide EncodeRecord, DecodeRecord, AckPayload, ParseAck;
    PlainFacts(AckRecord(ack));
    AckExact(AckPayload(ack), binding, hash, ack);
  }

  // ---- The invariant ---------------------------------------------------

  function Requests(w: World): Lane {
    Lane(REQUEST_ROLE, w.broker, w.target, w.toTarget, w.asked, w.taken, w.brokerClose)
  }

  function Responses(w: World): Lane {
    Lane(REPLY_ROLE, w.target, w.broker, w.toBroker, w.replied, w.returned, w.targetClose)
  }

  function LastOf(log: seq<u64>): u64 {
    if log == [] then 0 else log[|log| - 1]
  }

  function Outstanding(a: seq<u64>, b: seq<u64>): Option<u64> {
    if |a| > |b| then Some(a[|b|]) else None
  }

  predicate Increasing(log: seq<u64>) {
    && (forall i :: 0 <= i < |log| ==> log[i] > 0)
    && (forall i, j :: 0 <= i < j < |log| ==> log[i] < log[j])
  }

  predicate Steps(w: World) {
    && w.returned <= w.replied <= w.taken <= w.asked
    && |w.asked| <= |w.returned| + 1
    && Increasing(w.asked)
    && (!w.target.closed ==> w.target.pending == Outstanding(w.taken, w.replied) && w.target.last == LastOf(w.replied))
    && (!w.broker.closed ==>
          w.broker.pending == Outstanding(w.asked, w.returned) && w.broker.last == LastOf(w.returned))
  }

  predicate Inv(w: World) {
    && Kept(w.target) && Kept(w.broker) && Steps(w)
    && (!w.target.closed ==> Carrying(Requests(w)))
    && (!w.broker.closed ==> Carrying(Responses(w)))
  }

  lemma StartInv(key: Bytes32, ack: BootstrapAck)
    ensures Inv(StartWorld(key, ack))
  {
    hide EncodeRecord, CloseRecord, AckPayload, Carrying;
    PlainFacts(AckRecord(ack));
    LaneStarts(Requests(StartWorld(key, ack)));
    LaneStarts(Responses(StartWorld(key, ack)));
  }

  /** The next counter of the longer log, or none. */
  lemma NextOf(a: seq<u64>, b: seq<u64>)
    requires a <= b
    ensures |a| < |b| ==> a + [b[|a|]] <= b
  {
  }

  lemma IncreasesOn(log: seq<u64>, next: u64)
    requires Increasing(log) && next > LastOf(log)
    ensures Increasing(log + [next])
  {
  }

  // ---- The Target acts -------------------------------------------------

  lemma TargetEnds(w: World, call: LeaseCall, e: LeaseEffect)
    requires Inv(w) && Kept(e.state) && (Reading(call) ==> w.toTarget != [])
    requires Quiet(w.target, e) || Ends(w.target, e)
    requires call.Reply? ==> e.failure.Some?
    ensures Inv(TargetActs(w, call, e))
  {
    hide Carrying, Kept, Increasing, SessionRuns.CloseIn;
    assert e.state.closed && e.taken.None?;
    if !w.broker.closed {
      SenderEnds(Responses(w), e);
    }
  }

  lemma TargetRepliedSteps(w: World, call: LeaseCall, e: LeaseEffect)
    requires Steps(w) && !w.target.closed && call.Reply? && e.failure.None? && e.taken.None?
    requires w.target.pending == Some(call.counter) && e.state.pending.None? && e.state.last == call.counter
    ensures Steps(TargetActs(w, call, e))
    ensures |w.replied| == |w.returned|
  {
    hide Increasing, Noted;
    NextOf(w.replied, w.taken);
  }

  lemma TargetReplies(w: World, counter: u64)
    requires Inv(w)
    ensures Inv(TargetActs(w, Reply(counter), LeaseDo(w.target, Reply(counter))))
  {
    hide Carrying, LeaseDo, Steps;
    var e := LeaseDo(w.target, Reply(counter));
    ReplyCall(w.target, counter);
    LeaseCallKeeps(w.target, Reply(counter));
    if e.failure.Some? {
      TargetEnds(w, Reply(counter), e);
    } else {
      TargetRepliedSteps(w, Reply(counter), e);
      if !w.broker.closed {
        SenderBeats(Responses(w), e, counter, None, counter);
      }
      LaneUntouched(Requests(w), w.broker, e.state);
    }
  }

  /** An open Target that is owed a request is waiting for a larger counter. */
  lemma TargetAwaits(w: World)
    requires Steps(w) && !w.target.closed && |w.taken| < |w.asked|
    ensures w.target.pending.None? && w.asked[|w.taken|] > w.target.last
  {
  }

  lemma TargetTookSteps(w: World, call: LeaseCall, e: LeaseEffect)
    requires Steps(w) && !w.target.closed && call.TakeRequest? && w.toTarget != []
    requires |w.taken| < |w.asked| && e.taken == Some(w.asked[|w.taken|])
    requires e.state.pending == e.taken && e.state.last == w.target.last
    ensures Steps(TargetActs(w, call, e))
  {
    hide Increasing, Noted;
    NextOf(w.taken, w.asked);
  }

  lemma TargetTakes(w: World, call: LeaseCall)
    requires Inv(w) && call.TakeRequest? && w.toTarget != [] && call.frame == w.toTarget[0]
    ensures var e := LeaseDo(w.target, call);
            && Inv(TargetActs(w, call, e))
            && (|w.taken| < |w.asked| && !w.target.closed ==> e.failure.None? && e.taken == Some(w.asked[|w.taken|]))
  {
    hide Carrying, LeaseDo, Steps;
    var e := LeaseDo(w.target, call);
    LeaseCallKeeps(w.target, call);
    if w.target.closed {
      ClosedTakes(w.target, call);
      TargetEnds(w, call, e);
    } else if |w.taken| < |w.asked| {
      TargetAwaits(w);
      TakeRequestCall(Requests(w));
      TargetTookSteps(w, call, e);
      ReceiverTakes(Requests(w), e.state);
      if !w.broker.closed {
        assert w.toBroker + [] == w.toBroker;
        LaneUntouched(Responses(w), e.state, w.broker);
      }
    } else {
      TakeRequestCall(Requests(w));
      TargetEnds(w, call, e);
    }
  }

  lemma TargetStep(w: World, call: LeaseCall)
    requires Inv(w) && Enabled(w, Act(Target, call))
    ensures Inv(TargetActs(w, call, LeaseDo(w.target, call)))
  {
    hide Carrying, LeaseDo, Steps;
    var e := LeaseDo(w.target, call);
    LeaseCallKeeps(w.target, call);
    match call {
      case Reply(counter) => TargetReplies(w, counter);
      case TakeRequest(_) => TargetTakes(w, call);
      case Bye(reason, handoff) =>
        ByeCall(w.target, reason, handoff);
        TargetEnds(w, call, e);
      case TakeBye(_) => TargetSeesOff(w, call);
    }
  }

  lemma TargetSeesOff(w: World, call: LeaseCall)
    requires Inv(w) && call.TakeBye? && w.toTarget != [] && call.frame == w.toTarget[0]
    ensures Inv(TargetActs(w, call, LeaseDo(w.target, call)))
  {
    hide Carrying, LeaseDo;
    var e := LeaseDo(w.target, call);
    LeaseCallKeeps(w.target, call);
    TakesBye(w.target, call.frame, if w.target.closed then None else Some(Requests(w)));
    assert w.toBroker + [] == w.toBroker;
    if !w.broker.closed {
      LaneUntouched(Responses(w), e.state, w.broker);
    }
  }

  lemma TakesBye(s: LeaseState, frame: Frame, l: Option<Lane>)
    requires Kept(s)
    requires !s.closed ==>
               l.Some? && l.value.r == s && Carrying(l.value) && l.value.queue != [] && l.value.queue[0] == frame
    ensures var e := LeaseDo(s, TakeBye(frame));
            e.frames == [] && e.taken.None? && e.state.closed && SameOutbound(s, e.state)
  {
    hide Carrying, DecodeRecord;
    if !s.closed {
      FrontBye(l.value);
    }
  }

  // ---- The Broker acts -------------------------------------------------

  lemma BrokerEnds(w: World, call: LeaseCall, e: LeaseEffect)
    requires Inv(w) && Kept(e.state) && (Reading(call) ==> w.toBroker != [])
    requires Quiet(w.broker, e) || Ends(w.broker, e)
    requires call.Ask? ==> e.failure.Some?
    ensures Inv(BrokerActs(w, call, e))
  {
    hide Carrying, Kept, Increasing, SessionRuns.CloseIn;
    assert e.state.closed && e.taken.None?;
    if !w.target.closed {
      SenderEnds(Requests(w), e);
    }
  }

  lemma BrokerAskedSteps(w: World, call: LeaseCall, e: LeaseEffect)
    requires Steps(w) && !w.broker.closed && call.Ask? && e.failure.None? && e.taken.None?
    requires w.broker.pending.None? && call.counter > w.broker.last
    requires e.state.pending == Some(call.counter) && e.state.last == w.broker.last
    ensures Steps(BrokerActs(w, call, e))
    ensures |w.asked| == |w.taken|
  {
    hide Increasing, Noted;
    assert w.asked == w.returned;
    IncreasesOn(w.asked, call.counter);
  }

  lemma BrokerAsks(w: World, counter: u64)
    requires Inv(w)
    ensures Inv(BrokerActs(w, Ask(counter), LeaseDo(w.broker, Ask(counter))))
  {
    hide Carrying, LeaseDo, Steps;
    var e := LeaseDo(w.broker, Ask(counter));
    AskCall(w.broker, counter);
    LeaseCallKeeps(w.broker, Ask(counter));
    if e.failure.Some? {
      BrokerEnds(w, Ask(counter), e);
    } else {
      BrokerAskedSteps(w, Ask(counter), e);
      if !w.target.closed {
        SenderBeats(Requests(w), e, counter, Some(counter), w.broker.last);
      }
      LaneUntouched(Responses(w), w.target, e.state);
    }
  }

  lemma BrokerAwaits(w: World)
    requires Steps(w) && !w.broker.closed && |w.returned| < |w.replied|
    ensures w.broker.pending == Some(w.replied[|w.returned|])
  {
  }

  lemma BrokerTookSteps(w: World, call: LeaseCall, e: LeaseEffect)
    requires Steps(w) && !w.broker.closed && call.TakeReply? && w.toBroker != []
    requires |w.returned| < |w.replied| && e.taken == Some(w.replied[|w.returned|])
    requires e.state.pending.None? && e.state.last == w.replied[|w.returned|]
    ensures Steps(BrokerActs(w, call, e))
  {
    hide Increasing, Noted;
    NextOf(w.returned, w.replied);
  }

  lemma BrokerTakes(w: World, call: LeaseCall)
    requires Inv(w) && call.TakeReply? && w.toBroker != [] && call.frame == w.toBroker[0]
    ensures var e := LeaseDo(w.broker, call);
            && Inv(BrokerActs(w, call, e))
            && (|w.returned| < |w.replied| && !w.broker.closed ==>
                e.failure.None? && e.taken == Some(w.replied[|w.returned|]))
  {
    hide Carrying, LeaseDo, Steps;
    var e := LeaseDo(w.broker, call);
    LeaseCallKeeps(w.broker, call);
    if w.broker.closed {
      ClosedTakes(w.broker, call);
      BrokerEnds(w, call, e);
    } else if |w.returned| < |w.replied| {
      BrokerAwaits(w);
      TakeReplyCall(Responses(w));
      BrokerTookSteps(w, call, e);
      ReceiverTakes(Responses(w), e.state);
      if !w.target.closed {
        assert w.toTarget + [] == w.toTarget;
        LaneUntouched(Requests(w), e.state, w.target);
      }
    } else {
      TakeReplyCall(Responses(w));
      BrokerEnds(w, call, e);
    }
  }

  lemma BrokerSeesOff(w: World, call: LeaseCall)
    requires Inv(w) && call.TakeBye? && w.toBroker != [] && call.frame == w.toBroker[0]
    ensures Inv(BrokerActs(w, call, LeaseDo(w.broker, call)))
  {
    hide Carrying, LeaseDo;
    var e := LeaseDo(w.broker, call);
    LeaseCallKeeps(w.broker, call);
    TakesBye(w.broker, call.frame, if w.broker.closed then None else Some(Responses(w)));
    assert w.toTarget + [] == w.toTarget;
    if !w.target.closed {
      LaneUntouched(Requests(w), e.state, w.target);
    }
  }

  lemma BrokerStep(w: World, call: LeaseCall)
    requires Inv(w) && Enabled(w, Act(Broker, call))
    ensures Inv(BrokerActs(w, call, LeaseDo(w.broker, call)))
  {
    hide Carrying, LeaseDo, Steps;
    var e := LeaseDo(w.broker, call);
    LeaseCallKeeps(w.broker, call);
    match call {
      case Ask(counter) => BrokerAsks(w, counter);
      case TakeReply(_) => BrokerTakes(w, call);
      case Bye(reason, handoff) =>
        ByeCall(w.broker, reason, handoff);
        BrokerEnds(w, call, e);
      case TakeBye(_) => BrokerSeesOff(w, call);
    }
  }

  // ---- Over whole runs -------------------------------------------------

  lemma {:induction false} ReachableInv(w: World, acts: seq<Act>, end: World)
    requires Inv(w) && Reaches(w, acts, end)
    ensures Inv(end)
    decreases |acts|
  {
    hide Inv, LeaseDo;
    if acts != [] {
      if acts[0].role.Target? {
        TargetStep(w, acts[0].call);
      } else {
        BrokerStep(w, acts[0].call);
      }
      ReachableInv(Next(w, acts[0]), acts[1..], end);
    }
  }

  /** At most one heartbeat is ever outstanding, every counter is above the one
      before on both sides, and the Broker is never ahead of the Target. */
  lemma LockStep(key: Bytes32, ack: BootstrapAck, acts: seq<Act>, w: World)
    requires Reaches(StartWorld(key, ack), acts, w)
    ensures w.returned <= w.replied <= w.taken <= w.asked && |w.asked| <= |w.returned| + 1
    ensures Increasing(w.taken) && Increasing(w.returned)
    ensures !w.target.closed && !w.broker.closed ==> w.broker.last <= w.target.last
  {
    hide Inv, Reaches;
    StartInv(key, ack);
    ReachableInv(StartWorld(key, ack), acts, w);
    InvSteps(w);
  }

  lemma InvSteps(w: World)
    requires Inv(w)
    ensures w.returned <= w.replied <= w.taken <= w.asked && |w.asked| <= |w.returned| + 1
    ensures Increasing(w.taken) && Increasing(w.returned)
    ensures !w.target.closed && !w.broker.closed ==> w.broker.last <= w.target.last
  {
    hide Carrying, Kept;
  }

  /** While a side is open, the heartbeat it is owed is never refused. */
  lemma HonestBeatsAccepted(key: Bytes32, ack: BootstrapAck, acts: seq<Act>, w: World, call: LeaseCall)
    requires Reaches(StartWorld(key, ack), acts, w)
    ensures call.TakeRequest? && Enabled(w, Act(Target, call)) && |w.taken| < |w.asked| && !w.target.closed ==>
              var e := LeaseDo(w.target, call); e.failure.None? && e.taken == Some(w.asked[|w.taken|])
    ensures call.TakeReply? && Enabled(w, Act(Broker, call)) && |w.returned| < |w.replied| && !w.broker.closed ==>
              var e := LeaseDo(w.broker, call); e.failure.None? && e.taken == Some(w.replied[|w.returned|])
  {
    hide Inv, LeaseDo;
    StartInv(key, ack);
    ReachableInv(StartWorld(key, ack), acts, w);
    InvOrder(w);
    if call.TakeRequest? && Enabled(w, Act(Target, call)) && |w.taken| < |w.asked| {
      TargetTakes(w, call);
    }
    if call.TakeReply? && Enabled(w, Act(Broker, call)) && |w.returned| < |w.replied| {
      BrokerTakes(w, call);
    }
  }

  lemma InvOrder(w: World)
    requires Inv(w)
    ensures |w.returned| <= |w.replied| <= |w.taken| <= |w.asked|
  {
  }
}
