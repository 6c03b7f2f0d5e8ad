/** In every reachable state the timers are exactly what the slots say. */
module SupervisorTimers {
  import opened Common
  import opened Terms
  import opened Framing
  import opened Supervisor

  /** The slot a live timer belongs to, told by its action. */
  predicate Holds(phase: Phase, t: u64, a: TimerAction) {
    match phase
    case BootstrapM1Pending(_, _, _, frameTimer) => HoldsEarly(frameTimer, t, a)
    case BootstrapM2(_, _, frameTimer) => HoldsEarly(frameTimer, t, a)
    case BootstrapAckPending(_, _, _, frameTimer, _, _) => HoldsEarly(frameTimer, t, a)
    case Leased(lease) => HoldsLeased(lease, t, a)
    case _ => false
  }

  /** The bootstrap deadline is always the second token. */
  const BOOTSTRAP_TIMER: u64 := 2

  predicate HoldsEarly(frameTimer: Option<u64>, t: u64, a: TimerAction) {
    (a.Bootstrap? && t == BOOTSTRAP_TIMER) || (a.BootstrapFrame? && frameTimer == Some(t))
  }

  /** A frame timer started during the bootstrap stays with the lease stream. */
  predicate HoldsLeased(lease: Eligible, t: u64, a: TimerAction) {
    match a
    case Bootstrap => false
    case BootstrapFrame => lease.leaseFrameTimer == Some(t)
    case LeaseFrame => lease.leaseFrameTimer == Some(t)
    case LeaseTick => lease.leaseTickTimer == Some(t)
    case SessionPhase(id) => id in lease.children && lease.children[id].phaseTimer == Some(t)
    case SessionIdle(id) => id in lease.children && lease.children[id].phaseTimer == Some(t)
    case SessionFrame(id) => id in lease.children && lease.children[id].frameTimer == Some(t)
  }

  predicate LiveTimers(s: State) {
    forall t :: t in s.timers ==> 0 < t < s.nextToken && Holds(s.phase, t, s.timers[t])
  }

  /** A decoder owes a frame exactly while its frame timer runs; only when the
      tokens have run out can it owe one without a timer. */
  predicate FrameSlot(decoder: DecoderState, slot: Option<u64>, next: u64) {
    && decoder.Live?
    && (slot.Some? ==> Incomplete(decoder))
    && (next < U64_MAX && Incomplete(decoder) ==> slot.Some?)
  }

  predicate EarlySlots(s: State, decoder: DecoderState, frameTimer: Option<u64>) {
    && BOOTSTRAP_TIMER in s.timers && s.timers[BOOTSTRAP_TIMER].Bootstrap?
    && (frameTimer.Some? ==> frameTimer.value in s.timers && s.timers[frameTimer.value].BootstrapFrame?)
    && FrameSlot(decoder, frameTimer, s.nextToken)
  }

  predicate PhaseAction(id: u64, a: TimerAction) {
    a == SessionPhase(id) || a == SessionIdle(id)
  }

  predicate ChildSlots(id: u64, c: Child, timers: map<u64, TimerAction>, next: u64) {
    && (c.phaseTimer.Some? ==> c.phaseTimer.value in timers && PhaseAction(id, timers[c.phaseTimer.value]))
    && (c.frameTimer.Some? ==> c.frameTimer.value in timers && timers[c.frameTimer.value] == SessionFrame(id))
    && FrameSlot(c.decoder, c.frameTimer, next)
  }

  predicate LeaseSlots(lease: Eligible, timers: map<u64, TimerAction>, next: u64) {
    && (lease.leaseFrameTimer.Some? ==>
          && lease.leaseFrameTimer.value in timers
          && (timers[lease.leaseFrameTimer.value].BootstrapFrame? || timers[lease.leaseFrameTimer.value].LeaseFrame?))
    && FrameSlot(lease.leaseDecoder, lease.leaseFrameTimer, next)
    && lease.leaseTickTimer.Some?
    && (next < U64_MAX ==> lease.leaseTickTimer.value in timers)
    && (lease.leaseTickTimer.value in timers ==> timers[lease.leaseTickTimer.value].LeaseTick?)
    && lease.leaseTicks < LEASE_TICKS && lease.missedTicks < MISSED_TICKS
    && lease.leaseStream !in lease.children
    && (forall id :: id in lease.children ==> ChildSlots(id, lease.children[id], timers, next))
  }

  predicate Slots(s: State) {
    match s.phase
    case AwaitBootstrap => s.timers == map[] && s.nextToken == 1
    case BootstrapM1Pending(_, token, decoder, frameTimer) =>
      EarlySlots(s, decoder, frameTimer) && decoder == Live([]) && s.nextToken == 3
    case BootstrapM2(_, decoder, frameTimer) =>
      EarlySlots(s, decoder, frameTimer) && s.nextToken == if frameTimer.Some? then 4 else 3
    case BootstrapAckPending(_, _, decoder, frameTimer, _, _) =>
      EarlySlots(s, decoder, frameTimer) && s.nextToken <= 5
    case Leased(lease) => LeaseSlots(lease, s.timers, s.nextToken)
    case Terminated(_) => s.timers == map[]
  }

  predicate Coherent(s: State) {
    s.nextToken > 0 && LiveTimers(s) && Slots(s)
  }

  // ---- The moves handlers are made of ----------------------------------

  lemma NewIsCoherent()
    ensures Coherent(NewState())
  {
  }

  lemma EndLeaseKeeps(s: State, reason: CloseReason, peer: Option<PeerClose>)
    requires s.nextToken > 0
    ensures Coherent(EndLease(s, reason, peer).s)
  {
  }

  lemma AllocateKeeps(s: State)
    requires Coherent(s) && s.phase.Leased?
    ensures Coherent(Allocate(s).s)
    ensures Allocate(s).token.Some? ==> Allocate(s).token.value == s.nextToken
  {
  }

  lemma ChildChanges(s: State, id: u64, c: Child)
    requires Coherent(s) && s.phase.Leased? && id in s.phase.lease.children
    requires var was := s.phase.lease.children[id];
             c.phaseTimer == was.phaseTimer && c.frameTimer == was.frameTimer && c.decoder == was.decoder
    ensures Coherent(SetChild(s, id, c))
  {
  }

  lemma DropPhaseTimer(s: State, id: u64)
    requires Coherent(s) && s.phase.Leased? && id in s.phase.lease.children
    ensures var c := s.phase.lease.children[id];
            Coherent(SetChild(Cancel(s, c.phaseTimer), id, c.(phaseTimer := None)))
  {
  }

  lemma StartPhaseTimer(s: State, id: u64, action: TimerAction)
    requires Coherent(s) && s.phase.Leased? && id in s.phase.lease.children && PhaseAction(id, action)
    requires s.phase.lease.children[id].phaseTimer.None?
    ensures var a := Schedule(s, action);
            Coherent(if a.token.None? then a.s
                     else SetChild(a.s, id, s.phase.lease.children[id].(phaseTimer := a.token)))
  {
  }

  lemma ReplaceKeeps(s: State, id: u64, action: TimerAction)
    requires Coherent(s) && s.phase.Leased? && id in s.phase.lease.children && PhaseAction(id, action)
    ensures Coherent(ReplacePhaseTimer(s, id, action).s)
  {
    hide LiveTimers, Slots;
    var c := s.phase.lease.children[id];
    var s1 := SetChild(Cancel(s, c.phaseTimer), id, c.(phaseTimer := None));
    DropPhaseTimer(s, id);
    StartPhaseTimer(s1, id, action);
  }

  lemma EndChildKeeps(s: State, id: u64, reason: CloseReason, peer: Option<PeerClose>)
    requires Coherent(s)
    ensures Coherent(EndChild(s, id, reason, peer).s)
  {
    hide LiveTimers, Slots;
    if s.phase.Leased? && id in s.phase.lease.children {
      var c := s.phase.lease.children[id];
      var s1 := SetChild(Cancel(s, c.phaseTimer), id, c.(phaseTimer := None));
      DropPhaseTimer(s, id);
      RemoveChild(s1, id);
      assert s1.phase.lease.children - {id} == s.phase.lease.children - {id};
    }
  }

  lemma RemoveChild(s: State, id: u64)
    requires Coherent(s) && s.phase.Leased? && id in s.phase.lease.children
    requires s.phase.lease.children[id].phaseTimer.None?
    ensures Coherent(Cancel(s, s.phase.lease.children[id].frameTimer).(
                       phase := Leased(s.phase.lease.(children := s.phase.lease.children - {id}))))
  {
  }

  lemma SessionFrameKeeps(s: State, id: u64, decoder: DecoderState)
    requires Coherent(s) && s.phase.Leased? && id in s.phase.lease.children && decoder.Live?
    ensures var c := s.phase.lease.children[id];
            var t := UpdateFrameTimer(s, Incomplete(decoder), c.frameTimer, SessionFrame(id));
            Coherent(SetChild(t.s, id, c.(decoder := decoder, frameTimer := t.slot)))
  {
    if Incomplete(decoder) {
      SessionOwes(s, id, decoder);
    }
  }

  lemma SessionOwes(s: State, id: u64, decoder: DecoderState)
    requires Coherent(s) && s.phase.Leased? && id in s.phase.lease.children && decoder.Live? && Incomplete(decoder)
    ensures var c := s.phase.lease.children[id];
            var t := UpdateFrameTimer(s, true, c.frameTimer, SessionFrame(id));
            Coherent(SetChild(t.s, id, c.(decoder := decoder, frameTimer := t.slot)))
  {
  }

  lemma LeaseFrameKeeps(s: State, decoder: DecoderState)
    requires Coherent(s) && s.phase.Leased? && decoder.Live?
    ensures var lease := s.phase.lease;
            var t := UpdateFrameTimer(s, Incomplete(decoder), lease.leaseFrameTimer, LeaseFrame);
            Coherent(t.s.(phase := Leased(lease.(leaseDecoder := decoder, leaseFrameTimer := t.slot))))
  {
  }

  lemma ChildErrorKeeps(s: State, id: u64, error: CoreError)
    requires Coherent(s) && s.phase.Leased? && id in s.phase.lease.children
    ensures Coherent(ChildError(s, id, error).s)
  {
    hide LiveTimers, Slots, EndChild;
    if error.closeFrame.None? {
      EndChildKeeps(s, id, error.reason, error.peerClose);
    } else {
      AllocateKeeps(s);
      var a := Allocate(s);
      if a.token.None? {
        EndChildKeeps(a.s, id, InternalError, None);
      } else {
        var child := s.phase.lease.children[id];
        ChildChanges(a.s, id, ChildError(s, id, error).s.phase.lease.children[id]);
      }
    }
  }

  // ---- Every handler ---------------------------------------------------

  lemma ConnectedKeeps(s: State, event: Event, answers: Answers)
    requires Coherent(s)
    ensures Coherent(Connected(s, event, answers).s)
  {
  }

  /** Bytes that complete no frame leave the decoder owing one. */
  lemma NoFrameIsOwed(d: DecoderState, input: seq<byte>)
    requires d.Live? && input != [] && PushSpec(d, input).1 == Ok([])
    ensures Incomplete(PushSpec(d, input).0)
  {
    ScanConserves(d.tail + input);
  }

  lemma BootstrapBytesKeeps(s: State, event: Event, answers: Answers)
    requires Coherent(s) && s.phase.BootstrapM2? && event.bytes != []
    ensures Coherent(BootstrapBytes(s, event, answers).s)
  {
    hide Scan;
    if PushSpec(s.phase.decoder, event.bytes).1 == Ok([]) {
      NoFrameIsOwed(s.phase.decoder, event.bytes);
    }
  }

  lemma AdmittedKeeps(s: State)
    requires Coherent(s) && s.phase.BootstrapAckPending?
    ensures Coherent(Admitted(s).s)
  {
  }

  lemma CommittedChildKeeps(s: State, id: u64, token: u64)
    requires Coherent(s) && s.phase.Leased?
    ensures Coherent(CommittedChild(s, id, token).s)
  {
    hide LiveTimers, Slots, ReplacePhaseTimer, EndChild;
    if id in s.phase.lease.children {
      var c := s.phase.lease.children[id];
      ChildChanges(s, id, c.(phase := AwaitM2));
      ChildChanges(s, id, c.(phase := AwaitFinished));
      ChildChanges(s, id, c.(phase := Gone));
      ChildChanges(s, id, c.(phase := AwaitApplication));
      ReplaceKeeps(SetChild(s, id, c.(phase := AwaitApplication)), id, SessionIdle(id));
    }
  }

  lemma CommittedKeeps(s: State, event: Event)
    requires Coherent(s)
    ensures Coherent(Committed(s, event).s)
  {
    hide CommittedChild, Admitted;
    if s.phase.BootstrapAckPending? {
      AdmittedKeeps(s);
    } else if s.phase.Leased? {
      CommittedChildKeeps(s, event.stream, event.token);
    }
  }

  lemma NewChild(s: State, id: u64, phase: ChildPhase)
    requires Coherent(s) && s.phase.Leased? && id !in s.phase.lease.children && id != s.phase.lease.leaseStream
    ensures Coherent(SetChild(s, id, Child(phase, Live([]), None, None, 0)))
  {
  }

  lemma AcceptedKeeps(s: State, event: Event, answers: Answers)
    requires Coherent(s)
    ensures Coherent(Accepted(s, event, answers).s)
  {
    hide LiveTimers, Slots;
    var id := event.stream;
    if s.phase.Leased? && id !in s.phase.lease.children && id != s.phase.lease.leaseStream {
      AllocateKeeps(s);
      var a := Allocate(s);
      if a.token.Some? {
        var phase := M1Pending(a.token.value);
        var s1 := SetChild(a.s, id, Child(phase, Live([]), None, None, 0));
        NewChild(a.s, id, phase);
        StartPhaseTimer(s1, id, SessionPhase(id));
        ScheduleKeeps(a.s, id);
        var c := Child(phase, Live([]), Schedule(a.s, SessionPhase(id)).token, None, 0);
        assert s1.phase.lease.children[id := c] == s.phase.lease.children[id := c];
      }
    }
  }

  lemma ScheduleKeeps(s: State, id: u64)
    requires Coherent(s) && s.phase.Leased?
    ensures Schedule(s, SessionPhase(id)).token.None? ==> Coherent(Schedule(s, SessionPhase(id)).s)
  {
  }

  lemma RespondedKeeps(s: State, event: Event, answers: Answers)
    requires Coherent(s)
    ensures Coherent(Responded(s, event, answers).s)
  {
    hide LiveTimers, Slots, ChildError;
    if s.phase.Leased? && event.stream in s.phase.lease.children {
      var c := s.phase.lease.children[event.stream];
      var held := SetChild(s, event.stream, c.(phase := Gone));
      ChildChanges(s, event.stream, c.(phase := Gone));
      if answers.response.Err? {
        ChildErrorKeeps(held, event.stream, answers.response.error);
      } else {
        AllocateKeeps(held);
        var a := Allocate(held);
        if a.token.Some? {
          ChildChanges(a.s, event.stream, c.(phase := ResponsePending(a.token.value)));
        }
      }
    }
  }

  lemma LeaseBytesKeeps(s: State, event: Event, answers: Answers)
    requires Coherent(s) && s.phase.Leased?
    ensures Coherent(LeaseBytes(s, event, answers).s)
  {
    hide Scan, UpdateFrameTimer, LiveTimers, LeaseHandoff;
    var lease := s.phase.lease;
    var (decoder, pushed) := PushSpec(lease.leaseDecoder, event.bytes);
    if pushed.Err? {
      EndLeaseKeeps(s, pushed.error, None);
    } else {
      LeaseFrameKeeps(s, decoder);
      var t := UpdateFrameTimer(s, Incomplete(decoder), lease.leaseFrameTimer, LeaseFrame);
      var s1 := t.s.(phase := Leased(lease.(leaseDecoder := decoder, leaseFrameTimer := t.slot)));
      LeaseBytesTokens(s1);
      forall reason: CloseReason, peer: Option<PeerClose> ensures Coherent(EndLease(s1, reason, peer).s) {
        EndLeaseKeeps(s1, reason, peer);
      }
    }
  }

  lemma LeaseBytesTokens(s: State)
    requires Coherent(s) && s.phase.Leased?
    ensures var lease := s.phase.lease.(missedTicks := 0);
            var a := Allocate(s.(phase := Leased(lease)));
            && Coherent(a.s) && Coherent(a.s.(phase := Leased(lease.(leaseWrite := a.token))))
  {
  }

  lemma ReadHelloKeeps(s: State, id: u64, frames: nat, answers: Answers, started: Option<u64>)
    requires Coherent(s) && s.phase.Leased? && id in s.phase.lease.children
    ensures Coherent(ReadHello(s, id, frames, answers, started).s)
  {
    hide LiveTimers, Slots, ChildError, EndChild;
    if frames != 1 {
      EndChildKeeps(s, id, SequenceViolation, None);
    } else if answers.helloM2.Err? {
      ChildErrorKeeps(s, id, answers.helloM2.error);
    } else {
      AllocateKeeps(s);
      var a := Allocate(s);
      if a.token.Some? {
        ChildChanges(a.s, id, s.phase.lease.children[id].(phase := FinishedPending(a.token.value)));
      }
    }
  }

  lemma TakeBatchKeeps(s: State, id: u64, batch: Batch, started: Option<u64>)
    requires Coherent(s) && s.phase.Leased? && id in s.phase.lease.children
    ensures Coherent(TakeBatch(s, id, batch, started).s)
  {
    hide LiveTimers, Slots, ChildError, EndChild, ReplacePhaseTimer;
    var c := s.phase.lease.children[id];
    match batch {
      case Failing(error) => ChildErrorKeeps(s, id, error);
      case Two => EndChildKeeps(s, id, SequenceViolation, None);
      case Quiet => ChildChanges(s, id, c.(phase := AwaitApplication));
      case One(bytes) =>
        if c.applications != U64_MAX {
          var c1 := c.(phase := AwaitRuntime, applications := c.applications + 1);
          ChildChanges(s, id, c1);
          DropPhaseTimer(SetChild(s, id, c1), id);
          ReplaceKeeps(SetChild(s, id, c1), id, SessionPhase(id));
        }
    }
  }

  lemma SessionBytesKeeps(s: State, event: Event, answers: Answers)
    requires Coherent(s) && s.phase.Leased? && event.stream in s.phase.lease.children
    ensures Coherent(SessionBytes(s, event, answers).s)
  {
    hide LiveTimers, Slots, Scan, UpdateFrameTimer, TakeBatch, ReadHello, ReadBatch, ChildError;
    var id := event.stream;
    var child := s.phase.lease.children[id];
    var (decoder, pushed) := PushSpec(child.decoder, event.bytes);
    if pushed.Err? {
      BrokenChildKeeps(s, id, decoder, CoreError(pushed.error, None, None));
    } else {
      SessionFrameKeeps(s, id, decoder);
      var t := UpdateFrameTimer(s, Incomplete(decoder), child.frameTimer, SessionFrame(id));
      var child1 := child.(decoder := decoder, frameTimer := t.slot);
      var s1 := SetChild(t.s, id, child1);
      var held := SetChild(s1, id, child1.(phase := Gone));
      ChildChanges(s1, id, child1.(phase := Gone));
      ReadHelloKeeps(held, id, |pushed.value|, answers, t.started);
      if pushed.value != [] {
        if answers.finished.Some? {
          ChildErrorKeeps(held, id, answers.finished.value);
        }
        TakeBatchKeeps(held, id, ReadBatch(answers, 1, |pushed.value|, None), t.started);
        TakeBatchKeeps(held, id, ReadBatch(answers, 0, |pushed.value|, None), t.started);
      }
    }
  }

  /** A child whose decoder broke is gone, so its decoder does not matter. */
  lemma BrokenChildKeeps(s: State, id: u64, decoder: DecoderState, error: CoreError)
    requires Coherent(s) && s.phase.Leased? && id in s.phase.lease.children && error.closeFrame.None?
    ensures var c := s.phase.lease.children[id];
            Coherent(ChildError(SetChild(s, id, c.(decoder := decoder)), id, error).s)
  {
    hide LiveTimers, Slots;
    EndChildKeeps(s, id, error.reason, error.peerClose);
    var c := s.phase.lease.children[id];
    assert s.phase.lease.children[id := c.(decoder := decoder)] - {id} == s.phase.lease.children - {id};
  }

  lemma BytesKeeps(s: State, event: Event, answers: Answers)
    requires Coherent(s)
    ensures Coherent(Bytes(s, event, answers).s)
  {
    hide LiveTimers, Slots, BootstrapBytes, LeaseBytes, SessionBytes;
    if event.bytes == [] {
    } else if s.phase.BootstrapM2? {
      BootstrapBytesKeeps(s, event, answers);
    } else if s.phase.Leased? {
      LeaseBytesKeeps(s, event, answers);
      if event.stream in s.phase.lease.children {
        SessionBytesKeeps(s, event, answers);
      }
    }
  }

  lemma ClosedStreamKeeps(s: State, event: Event, answers: Answers)
    requires Coherent(s)
    ensures Coherent(ClosedStream(s, event, answers).s)
  {
    hide LiveTimers, Slots, ChildError, EndChild, EndLease, ChildEnd;
    forall reason: CloseReason ensures Coherent(EndLease(s, reason, None).s) {
      EndLeaseKeeps(s, reason, None);
    }
    if s.phase.Leased? && event.stream in s.phase.lease.children {
      var error := ChildEnd(s.phase.lease.children[event.stream], answers);
      if error.Some? {
        ChildErrorKeeps(s, event.stream, error.value);
      }
      EndChildKeeps(s, event.stream, if event.tag.StreamCloseNormal? then Normal else PeerClosed, None);
    }
  }

  /** A session timer that fires is one of its child's, which goes with the child. */
  lemma FiredChildEnds(s: State, t: u64, id: u64, reason: CloseReason)
    requires Coherent(s) && t in s.timers
    requires PhaseAction(id, s.timers[t]) || s.timers[t] == SessionFrame(id)
    ensures s.phase.Leased? && id in s.phase.lease.children
    ensures FiredChild(Cancel(s, Some(t)), id, reason) == EndChild(s, id, reason, None)
  {
    assert Holds(s.phase, t, s.timers[t]);
    var c := s.phase.lease.children[id];
    assert c.phaseTimer == Some(t) || c.frameTimer == Some(t);
    assert Cancel(Cancel(Cancel(s, Some(t)), c.phaseTimer), c.frameTimer).timers
        == Cancel(Cancel(s, c.phaseTimer), c.frameTimer).timers;
  }

  /** Firing the tick leaves its slot behind, until a new tick takes it. */
  predicate AwaitsTick(s: State) {
    && 0 < s.nextToken && s.phase.Leased?
    && s.phase.lease.leaseTickTimer.Some? && s.phase.lease.leaseTickTimer.value !in s.timers
    && LiveTimers(s)
    && (forall t :: t in s.timers ==> !s.timers[t].LeaseTick?)
    && LeaseSlots(s.phase.lease, s.timers, U64_MAX)
    && FrameSlot(s.phase.lease.leaseDecoder, s.phase.lease.leaseFrameTimer, s.nextToken)
    && (forall id :: id in s.phase.lease.children ==>
                       ChildSlots(id, s.phase.lease.children[id], s.timers, s.nextToken))
  }

  lemma TickLeavesSlot(s: State, t: u64)
    requires Coherent(s) && t in s.timers && s.timers[t].LeaseTick?
    ensures s.phase.Leased? && s.phase.lease.leaseTickTimer == Some(t)
    ensures AwaitsTick(Cancel(s, Some(t)))
  {
    assert Holds(s.phase, t, s.timers[t]);
  }

  lemma TickedKeeps(s: State, t: u64)
    requires AwaitsTick(s) && s.phase.lease.leaseTickTimer == Some(t)
    ensures Coherent(Ticked(s, t).s)
  {
    hide LeaseHandoff;
  }

  lemma FiredKeeps(s: State, event: Event)
    requires Coherent(s)
    ensures Coherent(Fired(s, event).s)
  {
    hide LiveTimers, Slots, EndLease, EndChild, FiredChild, Ticked;
    var t := event.token;
    if t in s.timers {
      forall reason: CloseReason ensures Coherent(EndLease(Cancel(s, Some(t)), reason, None).s) {
        EndLeaseKeeps(Cancel(s, Some(t)), reason, None);
      }
      match s.timers[t] {
        case LeaseTick => TickLeavesSlot(s, t); TickedKeeps(Cancel(s, Some(t)), t);
        case SessionPhase(id) => FiredChildEnds(s, t, id, Timeout); EndChildKeeps(s, id, Timeout, None);
        case SessionFrame(id) => FiredChildEnds(s, t, id, Timeout); EndChildKeeps(s, id, Timeout, None);
        case SessionIdle(id) => FiredChildEnds(s, t, id, Stale); EndChildKeeps(s, id, Stale, None);
        case _ =>
      }
    }
  }

  /** Every event, whatever the cores answer, keeps timers and slots in step. */
  lemma DriveKeeps(s: State, event: Event, answers: Answers)
    requires Coherent(s)
    ensures Coherent(Drive(s, event, answers).s)
  {
    hide LiveTimers, Slots, EndLease, Fired, Connected, Committed, Accepted, Responded, Bytes, ClosedStream;
    forall reason: CloseReason ensures Coherent(EndLease(s, reason, None).s) {
      EndLeaseKeeps(s, reason, None);
    }
    match event.tag {
      case TimerFired => FiredKeeps(s, event);
      case BootstrapConnected => ConnectedKeeps(s, event, answers);
      case FullWriteCommitted => CommittedKeeps(s, event);
      case SessionAccepted => AcceptedKeeps(s, event, answers);
      case RuntimeResponse => RespondedKeeps(s, event, answers);
      case StreamBytes => BytesKeeps(s, event, answers);
      case _ => ClosedStreamKeeps(s, event, answers);
    }
  }

  datatype Step = Step(event: Event, answers: Answers)

  function Drives(s: State, steps: seq<Step>): State
    decreases |steps|
  {
    if steps == [] then s else Drives(Drive(s, steps[0].event, steps[0].answers).s, steps[1..])
  }

  lemma {:induction false} DrivesKeep(s: State, steps: seq<Step>)
    requires Coherent(s)
    ensures Coherent(Drives(s, steps))
    decreases |steps|
  {
    hide Coherent, Drive;
    if steps != [] {
      DriveKeeps(s, steps[0].event, steps[0].answers);
      DrivesKeep(Drive(s, steps[0].event, steps[0].answers).s, steps[1..]);
    }
  }

  // ---- What coherence means --------------------------------------------

  datatype Slot = BootstrapSlot | LeaseFrameSlot | TickSlot | ChildPhaseSlot(id: u64) | ChildFrameSlot(id: u64)

  /** The token in a slot of the current phase. */
  function InSlot(s: State, slot: Slot): Option<u64> {
    match slot
    case BootstrapSlot => if HasBootstrap(s.phase) then Some(BOOTSTRAP_TIMER) else None
    case LeaseFrameSlot =>
      (match s.phase
       case BootstrapM1Pending(_, _, _, f) => f
       case BootstrapM2(_, _, f) => f
       case BootstrapAckPending(_, _, _, f, _, _) => f
       case Leased(lease) => lease.leaseFrameTimer
       case _ => None)
    case TickSlot => if s.phase.Leased? then s.phase.lease.leaseTickTimer else None
    case ChildPhaseSlot(id) =>
      if s.phase.Leased? && id in s.phase.lease.children then s.phase.lease.children[id].phaseTimer else None
    case ChildFrameSlot(id) =>
      if s.phase.Leased? && id in s.phase.lease.children then s.phase.lease.children[id].frameTimer else None
  }

  predicate HasBootstrap(phase: Phase) {
    phase.BootstrapM1Pending? || phase.BootstrapM2? || phase.BootstrapAckPending?
  }

  /** Every live timer sits in exactly one slot, and every slot names a live
      timer; the tick slot alone may be left behind once the tokens have run out. */
  lemma EachTimerOneSlot(s: State)
    requires Coherent(s)
    ensures forall t :: t in s.timers ==> 0 < t < s.nextToken && exists slot :: InSlot(s, slot) == Some(t)
    ensures forall a, b, t :: t in s.timers && InSlot(s, a) == Some(t) && InSlot(s, b) == Some(t) ==> a == b
    ensures forall slot :: InSlot(s, slot).Some? && (slot.TickSlot? ==> s.nextToken < U64_MAX) ==>
                             InSlot(s, slot).value in s.timers
  {
    forall t | t in s.timers ensures exists slot :: InSlot(s, slot) == Some(t) {
      assert InSlot(s, SlotFor(s.timers[t])) == Some(t);
    }
    forall slot, t | t in s.timers && InSlot(s, slot) == Some(t) ensures slot == SlotFor(s.timers[t]) {
      SlotTells(s, slot, t);
    }
  }

  lemma SlotTells(s: State, slot: Slot, t: u64)
    requires Coherent(s) && t in s.timers && InSlot(s, slot) == Some(t)
    ensures slot == SlotFor(s.timers[t])
  {
  }

  function SlotFor(a: TimerAction): Slot {
    match a
    case Bootstrap => BootstrapSlot
    case BootstrapFrame => LeaseFrameSlot
    case LeaseFrame => LeaseFrameSlot
    case LeaseTick => TickSlot
    case SessionPhase(id) => ChildPhaseSlot(id)
    case SessionIdle(id) => ChildPhaseSlot(id)
    case SessionFrame(id) => ChildFrameSlot(id)
  }
}
