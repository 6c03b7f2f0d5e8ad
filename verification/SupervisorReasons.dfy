/** Why a session or the lease ends: the reason an end gives, told from the event,
    from what the cores answered, and from how long the lease has lasted. */
module SupervisorReasons {
  import opened Common
  import opened Terms
  import opened Framing
  import opened Supervisor
  import opened SupervisorTimers
  import opened SupervisorRuns
  import opened SupervisorGaps

  // ---- What a call met -------------------------------------------------

  /** What the end of a stream or its bytes can show to be wrong. */
  datatype Cause = Nothing | Told(reason: CloseReason) | Core(error: CoreError)

  /** The decoder of the stream an event is about. */
  function DecoderOf(s: State, stream: u64): DecoderState {
    match s.phase
    case BootstrapM1Pending(_, _, decoder, _) => decoder
    case BootstrapM2(_, decoder, _) => decoder
    case BootstrapAckPending(_, _, decoder, _, _, _) => decoder
    case Leased(lease) =>
      if stream == lease.leaseStream then lease.leaseDecoder
      else if stream in lease.children then lease.children[stream].decoder
      else Live([])
    case _ => Live([])
  }

  predicate Owes(s: State, stream: u64) {
    DecoderOf(s, stream) != Live([])
  }

  function ArrivedOn(s: State, stream: u64, bytes: seq<byte>): Scanned {
    var decoder := DecoderOf(s, stream);
    if decoder.Live? then Scan(decoder.tail + bytes) else Broken
  }

  function CoreCause<T>(r: Result<T, CoreError>): Cause {
    if r.Err? then Core(r.error) else Nothing
  }

  /** What the complete envelopes of a session show. */
  function FramesCause(phase: ChildPhase, n: nat, a: Answers): Cause
    requires n > 0
  {
    if phase.AwaitM2? then (if n == 1 then CoreCause(a.helloM2) else Told(SequenceViolation))
    else
      match BatchFor(phase, a, n)
      case Failing(error) => Core(error)
      case Two => Told(SequenceViolation)
      case _ => Nothing
  }

  function BytesCause(s: State, event: Event, a: Answers): Cause {
    match ArrivedOn(s, event.stream, event.bytes)
    case Broken => Told(Malformed)
    case Scanned(frames, _) =>
      if frames == [] then Nothing
      else if s.phase.Leased? && event.stream in s.phase.lease.children then
        FramesCause(s.phase.lease.children[event.stream].phase, |frames|, a)
      else if |frames| != 1 then Told(SequenceViolation)
      else if s.phase.Leased? then CoreCause(a.heartbeat)
      else CoreCause(a.bootstrapM2)
  }

  /** An end that comes too early: inside a frame, or, by the core, inside a message;
      a failed transport is not asked. */
  function EarlyCause(s: State, event: Event, a: Answers): Cause {
    if event.tag.StreamIoFailed? then Nothing
    else if Owes(s, event.stream) then Told(Malformed)
    else if s.phase.Leased? && event.stream in s.phase.lease.children && event.stream != s.phase.lease.leaseStream then
      var phase := s.phase.lease.children[event.stream].phase;
      if phase.TerminalPending? || phase.Gone? || a.endOfSession.None? then Nothing
      else if a.endOfSession.value.reason == PeerClosed then Nothing
      else Core(a.endOfSession.value.(closeFrame := None))
    else Nothing
  }

  function EndCause(s: State, event: Event, a: Answers): Cause {
    var early := EarlyCause(s, event, a);
    if early != Nothing then early
    else if s.phase.Leased? && event.stream == s.phase.lease.leaseStream then Told(BrokerLost)
    else if event.tag.StreamCloseNormal? then Told(Normal)
    else Told(PeerClosed)
  }

  function TimerCause(s: State, token: u64): Cause {
    if token !in s.timers then Nothing
    else
      match s.timers[token]
      case SessionIdle(_) => Told(Stale)
      case LeaseTick => Told(if s.phase.Leased? && s.phase.lease.leaseTicks == 29 then Stale else BrokerLost)
      case _ => Told(Timeout)
  }

  /** What is behind an end that comes with this event. */
  function CauseOf(s: State, event: Event, a: Answers): Cause {
    match event.tag
    case LostEligibility =>
      Told(if s.phase.Leased? && s.phase.lease.epoch >= EPOCH_MAX then InternalError else EligibilityLost)
    case FailedCleanup => Told(CleanupFailed)
    case HitInternalError => Told(InternalError)
    case TimerFired => TimerCause(s, event.token)
    case StreamBytes => BytesCause(s, event, a)
    case RuntimeResponse => CoreCause(a.response)
    case BootstrapConnected => CoreCause(a.bootstrapM1)
    case FullWriteCommitted => Nothing
    case SessionAccepted => Nothing
    case _ => EndCause(s, event, a)
  }

  // ---- What the end says -----------------------------------------------

  /** A core's error is passed on with the peer's Close, unless a last Close would
      have to be written and no token is left for that write. */
  predicate Passes(error: CoreError, o: Outcome) {
    if o.kind.SessionTerminal? && error.closeFrame.Some? then o.reason == InternalError && o.peerClose.None?
    else o.reason == error.reason && o.peerClose == error.peerClose
  }

  /** The end a session had been waiting for since its last Close was to be written. */
  predicate AsAnnounced(s: State, event: Event, o: Outcome) {
    && event.tag.FullWriteCommitted? && s.phase.Leased? && event.stream in s.phase.lease.children
    && s.phase.lease.children[event.stream].phase.TerminalPending?
    && o.reason == s.phase.lease.children[event.stream].phase.terminal.reason
    && o.peerClose == s.phase.lease.children[event.stream].phase.terminal.peerClose
  }

  predicate SaysWhy(s: State, event: Event, a: Answers, o: Outcome) {
    match CauseOf(s, event, a)
    case Told(reason) => o.reason == reason && o.peerClose.None?
    case Core(error) => Passes(error, o)
    case Nothing => AsAnnounced(s, event, o)
  }

  /** A last Close carries the bytes, the reason and the peer's Close of the core's
      error, and the session keeps them for the end it will report. */
  predicate ClosesFor(s: State, event: Event, a: Answers, d: Driven)
    requires d.result.Ok?
  {
    var o, cause := d.result.value, CauseOf(s, event, a);
    && cause.Core? && cause.error.closeFrame.Some? && o.bytes == cause.error.closeFrame
    && o.reason == cause.error.reason && o.peerClose == cause.error.peerClose
    && d.s.phase.Leased? && event.stream in d.s.phase.lease.children
    && d.s.phase.lease.children[event.stream].phase
       == TerminalPending(o.token, TerminalInfo(o.reason, o.handoff, o.peerClose))
  }

  /** Every end and every last Close has its cause. */
  predicate Explained(s: State, event: Event, a: Answers, d: Driven) {
    d.result.Ok? ==>
      && (d.result.value.kind.SessionTerminal? || d.result.value.kind.LeaseTerminal? ==>
            SaysWhy(s, event, a, d.result.value))
      && (d.result.value.flags == 8 ==> ClosesFor(s, event, a, d))
  }

  /** The outcome neither ends anything nor closes. */
  predicate Mild(d: Driven) {
    d.result.Ok? ==>
      !d.result.value.kind.SessionTerminal? && !d.result.value.kind.LeaseTerminal? && d.result.value.flags != 8
  }

  lemma MildIsExplained(s: State, event: Event, a: Answers, d: Driven)
    requires Mild(d)
    ensures Explained(s, event, a, d)
  {
    hide SaysWhy, ClosesFor;
  }

  /** An end for a reason of the supervisor's own. */
  predicate EndsWith(d: Driven, reason: CloseReason) {
    && d.result.Ok? && (d.result.value.kind.SessionTerminal? || d.result.value.kind.LeaseTerminal?)
    && d.result.value.reason == reason && d.result.value.peerClose.None? && d.result.value.flags == 0
  }

  lemma EndingsEnd(s: State, id: u64, reason: CloseReason)
    ensures EndsWith(EndChild(s, id, reason, None), reason) && EndsWith(EndLease(s, reason, None), reason)
  {
    hide LeaseHandoff;
  }

  lemma ToldIsExplained(s: State, event: Event, a: Answers, d: Driven, reason: CloseReason)
    requires EndsWith(d, reason) && CauseOf(s, event, a) == Told(reason)
    ensures Explained(s, event, a, d)
  {
    hide CauseOf;
  }

  lemma LeaseErrorIsExplained(s: State, s1: State, event: Event, a: Answers, error: CoreError)
    requires CauseOf(s, event, a) == Core(error)
    ensures Explained(s, event, a, LeaseError(s1, error))
  {
    hide CauseOf, LeaseHandoff;
  }

  lemma ErrorIsExplained(s: State, s1: State, event: Event, a: Answers, error: CoreError)
    requires s1.phase.Leased? && event.stream in s1.phase.lease.children && CauseOf(s, event, a) == Core(error)
    requires s1.nextToken > 0
    ensures Explained(s, event, a, ChildError(s1, event.stream, error))
  {
    hide CauseOf, EndChild;
    PeerEnds(s1, event.stream, error.reason, error.peerClose);
    PeerEnds(Allocate(s1).s, event.stream, InternalError, None);
  }

  lemma PeerEnds(s: State, id: u64, reason: CloseReason, peer: Option<PeerClose>)
    ensures var r := EndChild(s, id, reason, peer).result;
            && r.Ok? && r.value.kind.SessionTerminal? && r.value.reason == reason && r.value.peerClose == peer
            && r.value.flags == 0
  {
  }

  lemma BrokenIsExplained(s: State, event: Event, a: Answers, c: Child)
    requires ToSession(s, event) && CauseOf(s, event, a) == Told(Malformed)
    ensures Explained(s, event, a,
                      ChildError(SetChild(s, event.stream, c), event.stream, CoreError(Malformed, None, None)))
  {
    hide CauseOf, EndChild;
    PeerEnds(SetChild(s, event.stream, c), event.stream, Malformed, None);
  }

  lemma ReadHelloExplained(s: State, s1: State, event: Event, n: nat, a: Answers, started: Option<u64>)
    requires s1.phase.Leased? && event.stream in s1.phase.lease.children && s1.nextToken > 0 && n > 0
    requires CauseOf(s, event, a) == FramesCause(AwaitM2, n, a)
    ensures Explained(s, event, a, ReadHello(s1, event.stream, n, a, started))
  {
    hide CauseOf, EndChild, ChildError, EndsWith;
    var d := ReadHello(s1, event.stream, n, a, started);
    EndingsEnd(s1, event.stream, SequenceViolation);
    if n != 1 {
      ToldIsExplained(s, event, a, d, SequenceViolation);
    } else if a.helloM2.Err? {
      ErrorIsExplained(s, s1, event, a, a.helloM2.error);
    } else {
      MildIsExplained(s, event, a, d);
    }
  }

  lemma TakeBatchExplained(s: State, s1: State, event: Event, a: Answers, batch: Batch, started: Option<u64>)
    requires s1.phase.Leased? && event.stream in s1.phase.lease.children && s1.nextToken > 0
    requires batch.Failing? ==> CauseOf(s, event, a) == Core(batch.error)
    requires batch.Two? ==> CauseOf(s, event, a) == Told(SequenceViolation)
    ensures Explained(s, event, a, TakeBatch(s1, event.stream, batch, started))
  {
    hide CauseOf, EndChild, ChildError, EndsWith, HandOver;
    var id := event.stream;
    var d := TakeBatch(s1, id, batch, started);
    EndingsEnd(s1, id, SequenceViolation);
    match batch {
      case Failing(error) => ErrorIsExplained(s, s1, event, a, error);
      case Two => ToldIsExplained(s, event, a, d, SequenceViolation);
      case Quiet => MildIsExplained(s, event, a, d);
      case One(bytes) =>
        var c := s1.phase.lease.children[id];
        if c.applications < U64_MAX {
          HandOverIsMild(SetChild(s1, id, c.(phase := AwaitRuntime, applications := c.applications + 1)), id, bytes,
                         started);
        }
        MildIsExplained(s, event, a, d);
    }
  }

  lemma HandOverIsMild(s: State, id: u64, bytes: seq<byte>, started: Option<u64>)
    requires s.phase.Leased? && id in s.phase.lease.children
    ensures Mild(HandOver(s, id, bytes, started))
  {
  }

  lemma SessionBytesExplained(s: State, event: Event, a: Answers)
    requires Coherent(s) && ToSession(s, event)
    ensures Explained(s, event, a, SessionBytes(s, event, a))
  {
    hide Scan, Coherent, ReadBatch, ChildError, ReadHello, TakeBatch, EndChild, FrameDeadline, Explained;
    var id := event.stream;
    OwnedByLive(s, id);
    var c := Addressed(s, event);
    SessionCause(s, event, a);
    if Arriving(s, event).Broken? {
      BrokenIsExplained(s, event, a, c.(decoder := Failed));
    } else {
      var decoder, n := Live(Arriving(s, event).tail), |Arriving(s, event).frames|;
      var t := UpdateFrameTimer(s, Incomplete(decoder), c.frameTimer, SessionFrame(id));
      var c1 := c.(decoder := decoder, frameTimer := t.slot);
      var s1 := SetChild(t.s, id, c1);
      FrameTimerTells(s, id, c, decoder);
      FrameIsMild(s1, id, t.started);
      MildIsExplained(s, event, a, Driven(s1, Ok(FrameDeadline(Plain(NeedInput, id), t.started))));
      MildIsExplained(s, event, a, Driven(s1, Err(WrongPhase)));
      MildIsExplained(s, event, a, Driven(s1, Err(Internal)));
      if !t.failed && n > 0 {
        var held := SetChild(s1, id, c1.(phase := Gone));
        match c.phase {
          case AwaitM2 => ReadHelloExplained(s, held, event, n, a, t.started);
          case AwaitFinished =>
            if a.finished.Some? {
              ErrorIsExplained(s, held, event, a, a.finished.value);
            } else {
              TakeBatchExplained(s, held, event, a, ReadBatch(a, 1, n, None), t.started);
            }
          case AwaitApplication => TakeBatchExplained(s, held, event, a, ReadBatch(a, 0, n, None), t.started);
          case _ =>
        }
      }
    }
  }

  lemma FrameIsMild(s: State, id: u64, started: Option<u64>)
    ensures Mild(Driven(s, Ok(FrameDeadline(Plain(NeedInput, id), started))))
  {
  }

  /** The cause of a session's bytes is in what its decoder makes of them. */
  lemma SessionCause(s: State, event: Event, a: Answers)
    requires ToSession(s, event)
    ensures var arrived := Arriving(s, event);
            CauseOf(s, event, a) == if arrived.Broken? then Told(Malformed)
                                    else if arrived.frames == [] then Nothing
                                    else FramesCause(Addressed(s, event).phase, |arrived.frames|, a)
  {
    hide Scan, FramesCause;
  }

  lemma LeaseBytesExplained(s: State, event: Event, a: Answers)
    requires Coherent(s) && s.phase.Leased? && event.stream == s.phase.lease.leaseStream && event.tag.StreamBytes?
    ensures Explained(s, event, a, LeaseBytes(s, event, a))
  {
    hide Scan, LiveTimers, LeaseHandoff;
    LeaseStreamIsNoChild(s);
  }

  lemma EarlyExplained(s: State, event: Event, a: Answers)
    requires Coherent(s) && !s.phase.Leased? && !s.phase.Terminated? && event.flags == 0
    requires event.tag.StreamBytes? || event.tag.BootstrapConnected? || event.tag.FullWriteCommitted?
    ensures Explained(s, event, a, Drive(s, event, a))
  {
    hide Scan, LiveTimers, LeaseHandoff;
  }

  lemma EarlyEndExplained(s: State, event: Event, a: Answers)
    requires Coherent(s) && !s.phase.Leased? && !s.phase.Terminated? && event.flags == 0
    requires !(event.tag.StreamBytes? || event.tag.BootstrapConnected? || event.tag.FullWriteCommitted?)
    ensures Explained(s, event, a, Drive(s, event, a))
  {
    hide LeaseHandoff;
  }

  lemma CommittedExplained(s: State, event: Event, a: Answers)
    requires Coherent(s) && s.phase.Leased? && event.tag.FullWriteCommitted?
    ensures Explained(s, event, a, Committed(s, event))
  {
    hide Coherent, EndChild;
    var id := event.stream;
    if id in s.phase.lease.children && s.phase.lease.children[id].phase.TerminalPending? {
      var t := s.phase.lease.children[id].phase.terminal;
      PeerEnds(s.(phase := Terminated(InternalTerminal())), id, t.reason, t.peerClose);
    }
  }

  lemma AcceptedExplained(s: State, event: Event, a: Answers)
    ensures Explained(s, event, a, Accepted(s, event, a))
  {
  }

  lemma RespondedExplained(s: State, event: Event, a: Answers)
    requires Coherent(s) && s.phase.Leased? && event.tag.RuntimeResponse?
    ensures Explained(s, event, a, Responded(s, event, a))
  {
    hide Slots, LiveTimers, ChildError;
    var id := event.stream;
    if id in s.phase.lease.children && a.response.Err? {
      ErrorIsExplained(s, SetChild(s, id, s.phase.lease.children[id].(phase := Gone)), event, a, a.response.error);
    }
  }

  lemma ClosedExplained(s: State, event: Event, a: Answers)
    requires Coherent(s) && s.phase.Leased? && event.tag in {StreamEof, StreamIoFailed, StreamCloseNormal}
    ensures Explained(s, event, a, ClosedStream(s, event, a))
  {
    hide LeaseHandoff, ChildError, EndChild;
    var id := event.stream;
    LeaseStreamIsNoChild(s);
    if id in s.phase.lease.children {
      OwnedByLive(s, id);
      EndingsEnd(s, id, if event.tag.StreamCloseNormal? then Normal else PeerClosed);
      var error := ChildEnd(s.phase.lease.children[id], a);
      if error.Some? {
        PlainErrorEnds(s, id, error.value);
      }
    }
  }

  lemma PlainErrorEnds(s: State, id: u64, error: CoreError)
    requires s.phase.Leased? && id in s.phase.lease.children && error.closeFrame.None?
    ensures var r := ChildError(s, id, error).result;
            && r.Ok? && r.value.kind.SessionTerminal? && r.value.reason == error.reason
            && r.value.peerClose == error.peerClose && r.value.flags == 0
  {
  }

  lemma FiredExplained(s: State, event: Event, a: Answers)
    requires Coherent(s) && s.phase.Leased? && event.tag.TimerFired?
    ensures Explained(s, event, a, Fired(s, event))
  {
    hide LiveTimers, LeaseHandoff, EndChild;
    if event.token in s.timers {
      var s1 := Cancel(s, Some(event.token));
      forall id, reason ensures EndsWith(EndChild(s1, id, reason, None), reason) {
        EndingsEnd(s1, id, reason);
      }
    }
  }

  /** Whatever the event and whatever the cores answer: the end of a session or of the
      lease gives exactly the reason and the peer's Close that its cause asks for, and
      a last Close exactly those of the error it is for. */
  lemma EndsTellWhy(s: State, event: Event, a: Answers)
    requires Coherent(s) && !s.phase.Terminated?
    ensures Explained(s, event, a, Drive(s, event, a))
  {
    hide Coherent, SessionBytes, LeaseBytes, Committed, Fired, Accepted, Responded, ClosedStream, LeaseHandoff, Scan;
    hide SaysWhy, ClosesFor;
    if event.flags != 0 {
    } else if !s.phase.Leased? {
      if event.tag.StreamBytes? || event.tag.BootstrapConnected? || event.tag.FullWriteCommitted? {
        EarlyExplained(s, event, a);
      } else {
        EarlyEndExplained(s, event, a);
      }
    } else {
      LeaseStreamIsNoChild(s);
      match event.tag {
        case FullWriteCommitted => CommittedExplained(s, event, a);
        case TimerFired => FiredExplained(s, event, a);
        case SessionAccepted => AcceptedExplained(s, event, a);
        case RuntimeResponse => RespondedExplained(s, event, a);
        case StreamBytes =>
          if ToSession(s, event) {
            SessionBytesExplained(s, event, a);
          } else if event.stream == s.phase.lease.leaseStream {
            LeaseBytesExplained(s, event, a);
          }
        case StreamEof => ClosedExplained(s, event, a);
        case StreamIoFailed => ClosedExplained(s, event, a);
        case StreamCloseNormal => ClosedExplained(s, event, a);
        case BootstrapConnected =>
        case LostEligibility => BareEnds(s, event, a);
        case FailedCleanup => BareEnds(s, event, a);
        case HitInternalError => BareEnds(s, event, a);
      }
    }
  }

  lemma BareEnds(s: State, event: Event, a: Answers)
    requires s.phase.Leased? && event.tag in {LostEligibility, FailedCleanup, HitInternalError}
    ensures Explained(s, event, a, Drive(s, event, a))
  {
    hide LeaseHandoff;
  }

  // ---- Ticks over runs -------------------------------------------------

  /** Bytes complete one heartbeat on the lease stream, and the core accepts it. */
  predicate Heard(s: State, step: Step) {
    var event := step.event;
    && s.phase.Leased? && event.flags == 0 && event.tag.StreamBytes? && event.stream == s.phase.lease.leaseStream
    && event.stream != 0 && event.token == 0 && event.bytes != [] && s.phase.lease.leaseWrite.None?
    && step.answers.heartbeat.Ok?
    && var arrived := ArrivedOn(s, event.stream, event.bytes);
       && arrived.Scanned? && |arrived.frames| == 1
       && TimerToSpare(s, s.phase.lease.leaseFrameTimer, arrived.tail)
  }

  /** Effective ticks of a run since the last heartbeat that was heard. */
  function TicksUnheard(s: State, steps: seq<Step>, since: nat): nat
    decreases |steps|
  {
    if steps == [] then since
    else
      var now := if Heard(s, steps[0]) then 0 else if Ticks(s, steps[0].event) then since + 1 else since;
      TicksUnheard(Drive(s, steps[0].event, steps[0].answers).s, steps[1..], now)
  }

  /** The lease counts its ticks, all of them and those since the last heartbeat. */
  predicate Counts(s: State, ticks: nat, unheard: nat) {
    if s.phase.Leased? then s.phase.lease.leaseTicks == ticks && s.phase.lease.missedTicks == unheard
    else s.phase.Terminated? || (ticks == 0 && unheard == 0)
  }

  lemma LeaseHears(s: State, event: Event, answers: Answers)
    requires Coherent(s) && s.phase.Leased? && event.stream == s.phase.lease.leaseStream && !event.tag.TimerFired?
    ensures var s' := Drive(s, event, answers).s;
            s'.phase.Leased? ==>
              s'.phase.lease.missedTicks == if Heard(s, Step(event, answers)) then 0 else s.phase.lease.missedTicks
  {
    hide Scan, LiveTimers, LeaseHandoff;
    LeaseStreamIsNoChild(s);
  }

  lemma Unheard(s: State, step: Step)
    requires s.phase.Leased? && (step.event.tag.TimerFired? || step.event.stream != s.phase.lease.leaseStream)
    ensures !Heard(s, step)
  {
  }

  lemma NoTick(s: State, event: Event)
    requires !event.tag.TimerFired? || !s.phase.Leased?
    ensures !Ticks(s, event)
  {
  }

  /** One step moves the two counts as it should. */
  lemma StepCounts(s: State, step: Step, ticks: nat, unheard: nat)
    requires Coherent(s) && Counts(s, ticks, unheard)
    ensures var tick := if Ticks(s, step.event) then 1 else 0;
            Counts(Drive(s, step.event, step.answers).s, ticks + tick, if Heard(s, step) then 0 else unheard + tick)
  {
    hide LiveTimers, Slots, LeaseHandoff, SessionOutcome, EndedTruly, Fired, Connected, Committed, Accepted, Responded;
    hide Bytes, ClosedStream, Heard, Ticks;
    var event := step.event;
    var d := Drive(s, event, step.answers);
    EndIsReported(s, event, step.answers);
    if d.s.phase.Terminated? {
    } else if !s.phase.Leased? {
      FreshLease(s, event, step.answers);
      NoTick(s, event);
      NothingHeard(s, step);
      StaysEarly(s, event, step.answers);
    } else if event.tag.TimerFired? {
      FiredCounts(s, event);
      Unheard(s, step);
      FlaggedIsNoTick(s, event);
    } else if event.stream == s.phase.lease.leaseStream {
      NoTick(s, event);
      LeaseCounts(s, event, step.answers);
      LeaseHears(s, event, step.answers);
      assert step == Step(event, step.answers);
    } else if Concerns(s, event, event.stream) {
      NoTick(s, event);
      Unheard(s, step);
      SessionsAreIsolated(s, event, step.answers, event.stream);
      SameLease(s, event.stream, d);
    } else {
      NoTick(s, event);
      Unheard(s, step);
      OtherCounts(s, event, step.answers);
    }
  }

  lemma NothingHeard(s: State, step: Step)
    requires !s.phase.Leased?
    ensures !Heard(s, step)
  {
  }

  lemma FlaggedIsNoTick(s: State, event: Event)
    ensures Ticks(s, event) ==> event.flags == 0
  {
  }

  lemma StaysEarly(s: State, event: Event, answers: Answers)
    requires Coherent(s) && !s.phase.Leased? && !Drive(s, event, answers).s.phase.Terminated?
    ensures !s.phase.Terminated?
  {
    hide Connected, Bytes, Committed, ClosedStream, Fired, Accepted, Responded;
  }

  lemma {:induction false} RunCounts(s: State, steps: seq<Step>, ticks: nat, unheard: nat)
    requires Coherent(s) && Counts(s, ticks, unheard)
    ensures Counts(Drives(s, steps), ticks + TickCount(s, steps), TicksUnheard(s, steps, unheard))
    decreases |steps|
  {
    hide Coherent, Drive, Ticks, Heard, Counts;
    if steps != [] {
      var tick := if Ticks(s, steps[0].event) then 1 else 0;
      var now := if Heard(s, steps[0]) then 0 else unheard + tick;
      DriveKeeps(s, steps[0].event, steps[0].answers);
      StepCounts(s, steps[0], ticks, unheard);
      RunCounts(Drive(s, steps[0].event, steps[0].answers).s, steps[1..], ticks + tick, now);
    }
  }

  /** Over every run from the start, a tick ends the lease exactly if it is the
      thirtieth, which ends it as stale, or else the fourth since the last heartbeat,
      which ends it as abandoned by the Broker. */
  lemma TicksEndExactly(steps: seq<Step>, token: u64, a: Answers)
    requires Ticks(Drives(NewState(), steps), Fire(token))
    ensures var s, ticks := Drives(NewState(), steps), TickCount(NewState(), steps) + 1;
            var unheard := TicksUnheard(NewState(), steps, 0) + 1;
            var d := Drive(s, Fire(token), a);
            && (d.s.phase.Terminated? <==> ticks == 30 || unheard == 4)
            && (d.s.phase.Terminated? ==>
                  d.result == Ok(EndOutcome(LeaseTerminal, 0,
                                            TerminalInfo(if ticks == 30 then Stale else BrokerLost,
                                                         LeaseHandoff(s.phase), None))))
  {
    hide Drives, TickCount, TicksUnheard, LiveTimers, LeaseHandoff;
    NewIsCoherent();
    DrivesKeep(NewState(), steps);
    RunCounts(NewState(), steps, 0, 0);
    var s := Drives(NewState(), steps);
    CountsAreSmall(s);
    TickEnds(s, token);
    TickHandsOut(s, token);
  }

  lemma TickHandsOut(s: State, token: u64)
    requires s.phase.Leased?
    ensures var lease := s.phase.lease;
            forall ticks, missed :: LeaseHandoff(Leased(lease.(leaseTicks := ticks, missedTicks := missed)))
                                    == LeaseHandoff(s.phase)
  {
  }
}
