/** What an announced deadline is: a timer that runs from then on, and the time its
    purpose allows. */
module SupervisorDeadlines {
  import opened Common
  import opened Terms
  import opened Framing
  import opened Supervisor
  import opened SupervisorTimers
  import opened SupervisorRuns
  import opened SupervisorGaps

  /** The time a session has in its phase: one second for its first message, two for
      the first answer of the runtime, and thirty for any later one. */
  function PhaseTime(c: Child): u64 {
    if c.phase.M1Pending? then 1_000 else if c.applications == 1 then 2_000 else 30_000
  }

  /** The time a timer has, by what it is for. */
  function TimeOf(s: State, t: u64): u64
    requires t in s.timers
  {
    match s.timers[t]
    case Bootstrap => 10_000
    case BootstrapFrame => 2_000
    case LeaseFrame => 2_000
    case SessionFrame(_) => 2_000
    case LeaseTick => 30_000
    case SessionIdle(_) => 30_000
    case SessionPhase(id) =>
      if s.phase.Leased? && id in s.phase.lease.children then PhaseTime(s.phase.lease.children[id]) else 0
  }

  /** The timer an outcome announces runs after the call, for the time announced;
      an outcome that announces none has no deadline. */
  predicate Timely(d: Driven) {
    d.result.Ok? ==>
      var o := d.result.value;
      if o.flags == 4 then o.token in d.s.timers && o.deadlineMs == TimeOf(d.s, o.token)
      else if o.flags == 2 then o.value0 in d.s.timers && o.deadlineMs == TimeOf(d.s, o.value0)
      else o.deadlineMs == 0
  }

  lemma QuietIsTimely(s: State)
    ensures forall e :: Timely(Driven(s, Err(e)))
    ensures forall kind, stream :: Timely(Driven(s, Ok(Plain(kind, stream))))
    ensures forall stream, token, bytes :: Timely(Driven(s, Ok(Write(stream, token, bytes))))
    ensures forall kind, stream, info :: Timely(Driven(s, Ok(EndOutcome(kind, stream, info))))
  {
  }

  lemma EndIsTimely(s: State, id: u64, reason: CloseReason, peer: Option<PeerClose>)
    ensures Timely(EndChild(s, id, reason, peer)) && Timely(EndLease(s, reason, peer))
  {
    hide LeaseHandoff;
  }

  lemma ErrorIsTimely(s: State, id: u64, error: CoreError)
    requires s.phase.Leased? && id in s.phase.lease.children
    ensures Timely(ChildError(s, id, error))
  {
    hide EndChild;
    EndIsTimely(s, id, error.reason, error.peerClose);
    EndIsTimely(Allocate(s).s, id, InternalError, None);
  }

  predicate ForFrame(a: TimerAction) {
    a.BootstrapFrame? || a.LeaseFrame? || a.SessionFrame?
  }

  /** A frame timer that has just been started is announced with two seconds. */
  lemma FrameIsTimely(s: State, o: Outcome, started: Option<u64>)
    requires o.flags == 0 && o.deadlineMs == 0
    requires started.Some? ==> started.value in s.timers && ForFrame(s.timers[started.value])
    ensures Timely(Driven(s, Ok(FrameDeadline(o, started))))
  {
  }

  lemma ReadHelloIsTimely(s: State, s1: State, id: u64, n: nat, answers: Answers, started: Option<u64>)
    requires Holding(s, s1, id, started)
    ensures Timely(ReadHello(s1, id, n, answers, started))
  {
    hide EndChild, ChildError, Timely, FrameDeadline;
    QuietIsTimely(Allocate(s1).s);
    EndIsTimely(s1, id, SequenceViolation, None);
    if n == 1 {
      match answers.helloM2 {
        case Err(error) => ErrorIsTimely(s1, id, error);
        case Ok(finished) =>
          var a := Allocate(s1);
          if a.token.Some? {
            var c := s1.phase.lease.children[id].(phase := FinishedPending(a.token.value));
            FrameIsTimely(SetChild(a.s, id, c), Write(id, a.token.value, finished), started);
          }
      }
    }
  }

  lemma TakeBatchIsTimely(s: State, s1: State, id: u64, batch: Batch, started: Option<u64>)
    requires Holding(s, s1, id, started)
    ensures Timely(TakeBatch(s1, id, batch, started))
  {
    hide EndChild, ChildError, HandOver, Timely, FrameDeadline;
    QuietIsTimely(s1);
    EndIsTimely(s1, id, SequenceViolation, None);
    var c := s1.phase.lease.children[id];
    match batch {
      case Failing(error) => ErrorIsTimely(s1, id, error);
      case One(bytes) =>
        if c.applications < U64_MAX {
          var s2 := SetChild(s1, id, c.(phase := AwaitRuntime, applications := c.applications + 1));
          HandOverIsTimely(s, s2, id, bytes, started);
        }
      case Quiet => FrameIsTimely(SetChild(s1, id, c.(phase := AwaitApplication)), Plain(NeedInput, id), started);
      case Two =>
    }
  }

  lemma HandOverIsTimely(s: State, s1: State, id: u64, bytes: seq<byte>, started: Option<u64>)
    requires Holding(s, s1, id, started) && s1.phase.lease.children[id].phase.AwaitRuntime?
    ensures Timely(HandOver(s1, id, bytes, started))
  {
  }

  lemma SessionBytesIsTimely(s: State, event: Event, answers: Answers)
    requires Coherent(s) && ToSession(s, event)
    ensures Timely(SessionBytes(s, event, answers))
  {
    hide Scan, Coherent, Told, ReadBatch, ChildError, ReadHello, TakeBatch, EndChild, Timely, FrameDeadline;
    var id := event.stream;
    OwnedByLive(s, id);
    var c := Addressed(s, event);
    if Arriving(s, event).Broken? {
      ErrorIsTimely(SetChild(s, id, c.(decoder := Failed)), id, CoreError(Malformed, None, None));
    } else {
      var decoder, n := Live(Arriving(s, event).tail), |Arriving(s, event).frames|;
      var t := UpdateFrameTimer(s, Incomplete(decoder), c.frameTimer, SessionFrame(id));
      var c1 := c.(decoder := decoder, frameTimer := t.slot);
      var s1 := SetChild(t.s, id, c1);
      FrameTimerTells(s, id, c, decoder);
      QuietIsTimely(s1);
      if !t.failed {
        var held := SetChild(s1, id, c1.(phase := Gone));
        FrameIsTimely(s1, Plain(NeedInput, id), t.started);
        if n > 0 {
          ReadHelloIsTimely(s, held, id, n, answers, t.started);
          TakeBatchIsTimely(s, held, id, ReadBatch(answers, 0, n, None), t.started);
          TakeBatchIsTimely(s, held, id, ReadBatch(answers, 1, n, None), t.started);
          if answers.finished.Some? {
            ErrorIsTimely(held, id, answers.finished.value);
          }
        }
      }
    }
  }

  lemma LeaseBytesIsTimely(s: State, event: Event, answers: Answers)
    requires Coherent(s) && s.phase.Leased?
    ensures Timely(LeaseBytes(s, event, answers))
  {
    hide Scan, LiveTimers, LeaseHandoff;
  }

  lemma EarlyIsTimely(s: State, event: Event, answers: Answers)
    requires Coherent(s) && !s.phase.Leased?
    ensures Timely(Drive(s, event, answers))
  {
    hide Coherent, Timely, EndLease, Connected, Committed, Bytes, ClosedStream, Fired;
    QuietIsTimely(s);
    forall reason, peer ensures Timely(EndLease(s, reason, peer)) {
      EndIsTimely(s, 0, reason, peer);
    }
    ConnectedIsTimely(s, event, answers);
    EarlyCommittedIsTimely(s, event);
    EarlyBytesIsTimely(s, event, answers);
    EarlyEndIsTimely(s, event, answers);
  }

  lemma ConnectedIsTimely(s: State, event: Event, answers: Answers)
    requires Coherent(s)
    ensures Timely(Connected(s, event, answers))
  {
    hide LiveTimers, LeaseHandoff;
  }

  lemma EarlyCommittedIsTimely(s: State, event: Event)
    requires Coherent(s) && !s.phase.Leased?
    ensures Timely(Committed(s, event))
  {
    hide Slots;
  }

  lemma EarlyBytesIsTimely(s: State, event: Event, answers: Answers)
    requires Coherent(s) && !s.phase.Leased?
    ensures Timely(Bytes(s, event, answers))
  {
    hide Scan, LiveTimers, LeaseHandoff;
  }

  lemma EarlyEndIsTimely(s: State, event: Event, answers: Answers)
    requires Coherent(s) && !s.phase.Leased?
    ensures Timely(ClosedStream(s, event, answers))
    ensures Timely(Fired(s, event))
    ensures Timely(Accepted(s, event, answers)) && Timely(Responded(s, event, answers))
  {
    hide Coherent, LeaseHandoff;
  }

  lemma CommittedIsTimely(s: State, event: Event)
    requires Coherent(s) && s.phase.Leased?
    ensures Timely(Committed(s, event))
  {
    hide Coherent, EndChild;
    var id := event.stream;
    if id in s.phase.lease.children {
      var c := s.phase.lease.children[id];
      if c.phase.TerminalPending? {
        EndOfNobodyIsPlain(s, id, c.phase.terminal);
      }
    }
  }

  lemma EndOfNobodyIsPlain(s: State, id: u64, t: TerminalInfo)
    ensures var r := EndChild(s.(phase := Terminated(InternalTerminal())), id, t.reason, t.peerClose).result;
            r == Ok(EndOutcome(SessionTerminal, id, TerminalInfo(t.reason, NotHandedOff, t.peerClose)))
  {
  }

  lemma FiredIsTimely(s: State, event: Event)
    requires Coherent(s) && s.phase.Leased?
    ensures Timely(Fired(s, event))
  {
    hide Coherent, LeaseHandoff;
  }

  lemma AcceptedIsTimely(s: State, event: Event, answers: Answers)
    requires Coherent(s) && s.phase.Leased?
    ensures Timely(Accepted(s, event, answers))
  {
    hide Coherent;
    TokensAreSmall(s);
  }

  lemma RespondedIsTimely(s: State, event: Event, answers: Answers)
    requires Coherent(s) && s.phase.Leased?
    ensures Timely(Responded(s, event, answers))
  {
    hide Coherent, ChildError;
    var id := event.stream;
    if id in s.phase.lease.children && answers.response.Err? {
      ErrorIsTimely(SetChild(s, id, s.phase.lease.children[id].(phase := Gone)), id, answers.response.error);
    }
  }

  lemma ClosedStreamIsTimely(s: State, event: Event, answers: Answers)
    requires Coherent(s) && s.phase.Leased?
    ensures Timely(ClosedStream(s, event, answers))
  {
    hide Coherent, LeaseHandoff, ChildEnd, ChildError, EndChild;
    var id := event.stream;
    if id in s.phase.lease.children {
      var error := ChildEnd(s.phase.lease.children[id], answers);
      if error.Some? {
        ErrorIsTimely(s, id, error.value);
      }
      EndIsTimely(s, id, if event.tag.StreamCloseNormal? then Normal else PeerClosed, None);
    }
  }

  /** Whatever the event and whatever the cores answer: a deadline that is announced
      is that of a running timer, and long as its purpose says. */
  lemma DeadlinesAreTimely(s: State, event: Event, answers: Answers)
    requires Coherent(s)
    ensures Timely(Drive(s, event, answers))
  {
    hide Coherent, Timely, SessionBytes, LeaseBytes, Committed, Fired, Accepted, Responded, ClosedStream, EndLease;
    hide Scan, LeaseHandoff;
    if !s.phase.Leased? {
      EarlyIsTimely(s, event, answers);
    } else {
      QuietIsTimely(s);
      LeaseStreamIsNoChild(s);
      forall reason, peer ensures Timely(EndLease(s, reason, peer)) {
        EndIsTimely(s, 0, reason, peer);
      }
      CommittedIsTimely(s, event);
      FiredIsTimely(s, event);
      AcceptedIsTimely(s, event, answers);
      RespondedIsTimely(s, event, answers);
      ClosedStreamIsTimely(s, event, answers);
      LeaseBytesIsTimely(s, event, answers);
      if ToSession(s, event) {
        SessionBytesIsTimely(s, event, answers);
      }
    }
  }
}
