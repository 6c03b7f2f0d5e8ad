/** What the supervisor promises over whole runs: isolation of its sessions,
    exact terminal timers, an absorbing end, a bounded lease, and hand-off truth. */
module SupervisorRuns {
  import opened Common
  import opened Terms
  import opened Framing
  import opened Supervisor
  import opened SupervisorTimers

  // ---- A session's events stay with the session ------------------------

  predicate Of(id: u64, a: TimerAction) {
    PhaseAction(id, a) || a == SessionFrame(id)
  }

  function OtherTimers(s: State, id: u64): map<u64, TimerAction> {
    map t | t in s.timers && !Of(id, s.timers[t]) :: s.timers[t]
  }

  function OtherChildren(s: State, id: u64): map<u64, Child>
    requires s.phase.Leased?
  {
    s.phase.lease.children - {id}
  }

  /** A timer that was not there before has a token that was never given out. */
  predicate TokensAdvance(s: State, s': State) {
    && s'.nextToken >= s.nextToken
    && (forall t :: t in s'.timers ==> t in s.timers || t >= s.nextToken)
  }

  /** Only this child and its timers differ. */
  predicate Apart(s: State, id: u64, s': State) {
    && s.phase.Leased? && s'.phase.Leased?
    && TokensAdvance(s, s')
    && s'.phase.lease == s.phase.lease.(children := s'.phase.lease.children)
    && OtherChildren(s', id) == OtherChildren(s, id)
    && OtherTimers(s', id) == OtherTimers(s, id)
  }

  function Applications(s: State, id: u64): u64 {
    if s.phase.Leased? && id in s.phase.lease.children then s.phase.lease.children[id].applications else 0
  }

  /** The outcomes of one session's events: its application count moves with its
      Application outcomes, and its end tells whether there were any. */
  predicate SessionOutcome(s: State, id: u64, d: Driven) {
    && Apart(s, id, d.s)
    && (d.result.Ok? ==>
          var o := d.result.value;
          && !o.kind.LeaseTerminal?
          && (o.kind.WriteFrames? ==>
              o.stream == id && s.nextToken <= o.token < d.s.nextToken && o.token !in d.s.timers)
          && (o.kind.Application? ==> o.stream == id && id in d.s.phase.lease.children
                                      && d.s.phase.lease.children[id].applications == Applications(s, id) + 1)
          && (o.kind.SessionTerminal? ==> o.stream == id))
    && (!(d.result.Ok? && d.result.value.kind.Application?) && id in d.s.phase.lease.children ==>
          d.s.phase.lease.children[id].applications == Applications(s, id)
          || (d.result.Err? && d.s.nextToken == U64_MAX))
  }

  function Truth(s: State, id: u64): Handoff {
    if Applications(s, id) > 0 then HandoffPossibleOrConfirmed else NotHandedOff
  }

  /** The child is gone and its end says whether it had an application. */
  predicate EndedTruly(s: State, id: u64, d: Driven) {
    d.result.Ok? && d.result.value.kind.SessionTerminal? ==>
      && d.s.phase.Leased? && id !in d.s.phase.lease.children
      && d.result.value.handoff == Truth(s, id)
  }

  lemma SetApart(s: State, id: u64, c: Child)
    requires s.phase.Leased?
    ensures Apart(s, id, SetChild(s, id, c))
  {
    assert s.phase.lease.children[id := c] - {id} == s.phase.lease.children - {id};
  }

  lemma AllocateApart(s: State, id: u64)
    requires s.phase.Leased?
    ensures Apart(s, id, Allocate(s).s)
  {
    assert OtherTimers(Allocate(s).s, id) == OtherTimers(s, id);
  }

  lemma ScheduleApart(s: State, id: u64, action: TimerAction)
    requires Coherent(s) && s.phase.Leased? && Of(id, action)
    ensures Apart(s, id, Schedule(s, action).s)
  {
    assert OtherTimers(Schedule(s, action).s, id) == OtherTimers(s, id);
  }

  lemma CancelApart(s: State, id: u64, slot: Option<u64>)
    requires s.phase.Leased?
    requires slot.Some? && slot.value in s.timers ==> Of(id, s.timers[slot.value])
    ensures Apart(s, id, Cancel(s, slot))
  {
    assert OtherTimers(Cancel(s, slot), id) == OtherTimers(s, id);
  }

  lemma ChildTimersAreOf(s: State, id: u64)
    requires Coherent(s) && s.phase.Leased? && id in s.phase.lease.children
    ensures var c := s.phase.lease.children[id];
            && (c.phaseTimer.Some? ==> c.phaseTimer.value in s.timers && Of(id, s.timers[c.phaseTimer.value]))
            && (c.frameTimer.Some? ==> c.frameTimer.value in s.timers && Of(id, s.timers[c.frameTimer.value]))
  {
  }

  lemma ApartOn(s: State, id: u64, mid: State, end: State)
    requires Apart(s, id, mid) && Apart(mid, id, end)
    ensures Apart(s, id, end)
  {
  }

  lemma RemoveApart(s: State, id: u64)
    requires s.phase.Leased?
    ensures Apart(s, id, s.(phase := Leased(s.phase.lease.(children := s.phase.lease.children - {id}))))
  {
    assert (s.phase.lease.children - {id}) - {id} == s.phase.lease.children - {id};
  }

  lemma CancelKeepsPhase(s: State, slot: Option<u64>)
    ensures Cancel(s, slot).phase == s.phase
  {
  }

  lemma EndChildStaysApart(s: State, id: u64, reason: CloseReason, peer: Option<PeerClose>)
    requires Coherent(s) && s.phase.Leased? && id in s.phase.lease.children
    ensures Apart(s, id, EndChild(s, id, reason, peer).s)
  {
    hide Coherent, Apart, Cancel, Of;
    var c := s.phase.lease.children[id];
    ChildTimersAreOf(s, id);
    var s1 := Cancel(s, c.phaseTimer);
    CancelKeepsPhase(s, c.phaseTimer);
    CancelKeepsPhase(s1, c.frameTimer);
    CancelApart(s, id, c.phaseTimer);
    FewerTimers(s, c.phaseTimer);
    CancelApart(s1, id, c.frameTimer);
    var s2 := Cancel(s1, c.frameTimer);
    RemoveApart(s2, id);
    ApartOn(s, id, s1, s2);
    ApartOn(s, id, s2, EndChild(s, id, reason, peer).s);
  }

  lemma FewerTimers(s: State, slot: Option<u64>)
    ensures forall t :: t in Cancel(s, slot).timers ==> t in s.timers && Cancel(s, slot).timers[t] == s.timers[t]
  {
  }

  lemma EndChildApart(s: State, id: u64, reason: CloseReason, peer: Option<PeerClose>)
    requires Coherent(s) && s.phase.Leased? && id in s.phase.lease.children
    ensures SessionOutcome(s, id, EndChild(s, id, reason, peer))
    ensures EndedTruly(s, id, EndChild(s, id, reason, peer))
    ensures EndChild(s, id, reason, peer).result.Ok? && EndChild(s, id, reason, peer).result.value.kind.SessionTerminal?
  {
    hide Coherent, Apart, Cancel;
    EndChildStaysApart(s, id, reason, peer);
  }

  lemma ReplaceApart(s: State, id: u64, action: TimerAction)
    requires Coherent(s) && s.phase.Leased? && id in s.phase.lease.children && PhaseAction(id, action)
    ensures var a := ReplacePhaseTimer(s, id, action);
            && Apart(s, id, a.s) && id in a.s.phase.lease.children
            && a.s.phase.lease.children[id] == s.phase.lease.children[id].(phaseTimer := a.token)
            && (a.token.None? ==> a.s.nextToken == U64_MAX)
  {
    hide Coherent;
    var c := s.phase.lease.children[id];
    var s1 := SetChild(Cancel(s, c.phaseTimer), id, c.(phaseTimer := None));
    ChildTimersAreOf(s, id);
    CancelApart(s, id, c.phaseTimer);
    SetApart(Cancel(s, c.phaseTimer), id, c.(phaseTimer := None));
    DropPhaseTimer(s, id);
    ScheduleApart(s1, id, action);
    var a := Schedule(s1, action);
    SetApart(a.s, id, c.(phaseTimer := a.token));
    NextIsPositive(s);
  }

  lemma NextIsPositive(s: State)
    requires Coherent(s)
    ensures s.nextToken > 0 && s.nextToken !in s.timers
  {
  }

  lemma ChildErrorApart(s: State, id: u64, error: CoreError)
    requires Coherent(s) && s.phase.Leased? && id in s.phase.lease.children
    ensures SessionOutcome(s, id, ChildError(s, id, error))
    ensures EndedTruly(s, id, ChildError(s, id, error))
  {
    hide Coherent, EndChild;
    NextIsPositive(s);
    if error.closeFrame.None? {
      EndChildApart(s, id, error.reason, error.peerClose);
    } else {
      AllocateApart(s, id);
      AllocateKeeps(s);
      var a := Allocate(s);
      if a.token.None? {
        EndChildApart(a.s, id, InternalError, None);
      } else {
        SetApart(a.s, id, ChildError(s, id, error).s.phase.lease.children[id]);
      }
    }
  }

  /** A first move inside the session changes nothing about what is promised. */
  lemma Onward(s: State, id: u64, s1: State, d: Driven)
    requires Apart(s, id, s1) && Applications(s1, id) == Applications(s, id)
    requires SessionOutcome(s1, id, d)
    ensures SessionOutcome(s, id, d)
    ensures EndedTruly(s1, id, d) ==> EndedTruly(s, id, d)
  {
  }

  lemma SameApart(s: State, id: u64)
    requires s.phase.Leased?
    ensures Apart(s, id, s)
  {
  }

  lemma CommittedChildApart(s: State, id: u64, token: u64)
    requires Coherent(s) && s.phase.Leased?
    ensures SessionOutcome(s, id, CommittedChild(s, id, token))
    ensures var d := CommittedChild(s, id, token);
            d.result.Ok? && d.result.value.kind.SessionTerminal? ==>
              && d.result.value.handoff.NotHandedOff?
              && id in d.s.phase.lease.children && d.s.timers == s.timers
              && s.phase.lease.children[id].phase.TerminalPending?
  {
    hide LiveTimers, Slots, ReplacePhaseTimer, Apart;
    SameApart(s, id);
    if id in s.phase.lease.children {
      var c := s.phase.lease.children[id];
      SetApart(s, id, c.(phase := AwaitM2));
      SetApart(s, id, c.(phase := AwaitFinished));
      SetApart(s, id, c.(phase := Gone));
      SetApart(s, id, c.(phase := AwaitApplication));
      ChildChanges(s, id, c.(phase := AwaitApplication));
      var waiting := SetChild(s, id, c.(phase := AwaitApplication));
      ReplaceApart(waiting, id, SessionIdle(id));
      ApartOn(s, id, waiting, ReplacePhaseTimer(waiting, id, SessionIdle(id)).s);
    }
  }

  lemma AcceptedApart(s: State, event: Event, answers: Answers)
    requires Coherent(s) && s.phase.Leased?
    ensures var d := Accepted(s, event, answers);
            && SessionOutcome(s, event.stream, d)
            && (d.result.Ok? ==> d.result.value.kind.WriteFrames? && Applications(d.s, event.stream) == 0)
            && (d.result.Ok? <==> event.stream !in s.phase.lease.children && event.stream in d.s.phase.lease.children)
  {
    hide LiveTimers, Slots;
    var id := event.stream;
    NextIsPositive(s);
    AllocateApart(s, id);
    AllocateKeeps(s);
    var a := Allocate(s);
    ScheduleApart(a.s, id, SessionPhase(id));
    var timer := Schedule(a.s, SessionPhase(id));
    if a.token.Some? && timer.token.Some? {
      SetApart(timer.s, id, Child(M1Pending(a.token.value), Live([]), timer.token, None, 0));
    }
  }

  lemma RespondedApart(s: State, event: Event, answers: Answers)
    requires Coherent(s) && s.phase.Leased?
    ensures SessionOutcome(s, event.stream, Responded(s, event, answers))
    ensures EndedTruly(s, event.stream, Responded(s, event, answers))
  {
    hide LiveTimers, Slots, ChildError;
    var id := event.stream;
    if id in s.phase.lease.children {
      var c := s.phase.lease.children[id];
      var held := SetChild(s, id, c.(phase := Gone));
      SetApart(s, id, c.(phase := Gone));
      ChildChanges(s, id, c.(phase := Gone));
      if answers.response.Err? {
        ChildErrorApart(held, id, answers.response.error);
        Onward(s, id, held, ChildError(held, id, answers.response.error));
      } else {
        NextIsPositive(held);
        AllocateApart(held, id);
        var a := Allocate(held);
        if a.token.Some? {
          SetApart(a.s, id, c.(phase := ResponsePending(a.token.value)));
        }
      }
    }
  }

  lemma ReadHelloApart(s: State, id: u64, frames: nat, answers: Answers, started: Option<u64>)
    requires Coherent(s) && s.phase.Leased? && id in s.phase.lease.children
    ensures SessionOutcome(s, id, ReadHello(s, id, frames, answers, started))
    ensures EndedTruly(s, id, ReadHello(s, id, frames, answers, started))
  {
    hide LiveTimers, Slots, ChildError, EndChild;
    NextIsPositive(s);
    if frames != 1 {
      EndChildApart(s, id, SequenceViolation, None);
    } else if answers.helloM2.Err? {
      ChildErrorApart(s, id, answers.helloM2.error);
    } else {
      AllocateApart(s, id);
      var a := Allocate(s);
      if a.token.Some? {
        SetApart(a.s, id, s.phase.lease.children[id].(phase := FinishedPending(a.token.value)));
      }
    }
  }

  lemma HandOverApart(s: State, id: u64, bytes: seq<byte>, started: Option<u64>)
    requires Coherent(s) && s.phase.Leased? && id in s.phase.lease.children
    ensures var d := HandOver(s, id, bytes, started);
            && Apart(s, id, d.s)
            && id in d.s.phase.lease.children && Applications(d.s, id) == Applications(s, id)
            && (if d.result.Ok? then d.result.value.kind.Application? && d.result.value.stream == id
                else d.s.nextToken == U64_MAX)
  {
    hide LiveTimers, Slots, ReplacePhaseTimer;
    var c := s.phase.lease.children[id];
    if started.Some? {
      ChildTimersAreOf(s, id);
      CancelApart(s, id, c.phaseTimer);
      SetApart(Cancel(s, c.phaseTimer), id, c.(phaseTimer := None));
    } else {
      ReplaceApart(s, id, SessionPhase(id));
    }
  }

  lemma TakeBatchApart(s: State, id: u64, batch: Batch, started: Option<u64>)
    requires Coherent(s) && s.phase.Leased? && id in s.phase.lease.children
    ensures SessionOutcome(s, id, TakeBatch(s, id, batch, started))
    ensures EndedTruly(s, id, TakeBatch(s, id, batch, started))
  {
    hide LiveTimers, Slots, ChildError, EndChild, HandOver;
    var c := s.phase.lease.children[id];
    match batch {
      case Failing(error) => ChildErrorApart(s, id, error);
      case Two => EndChildApart(s, id, SequenceViolation, None);
      case Quiet => SetApart(s, id, c.(phase := AwaitApplication));
      case One(bytes) =>
        if c.applications != U64_MAX {
          var c1 := c.(phase := AwaitRuntime, applications := c.applications + 1);
          SetApart(s, id, c1);
          ChildChanges(s, id, c1);
          HandOverApart(SetChild(s, id, c1), id, bytes, started);
        }
    }
  }

  lemma FrameTimerApart(s: State, id: u64, incomplete: bool, slot: Option<u64>)
    requires Coherent(s) && s.phase.Leased?
    requires slot.Some? && slot.value in s.timers ==> Of(id, s.timers[slot.value])
    ensures Apart(s, id, UpdateFrameTimer(s, incomplete, slot, SessionFrame(id)).s)
    ensures UpdateFrameTimer(s, incomplete, slot, SessionFrame(id)).failed ==> s.nextToken == U64_MAX
  {
    hide Coherent;
    CancelApart(s, id, slot);
    ScheduleApart(s, id, SessionFrame(id));
    NextIsPositive(s);
  }

  lemma SessionBytesApart(s: State, event: Event, answers: Answers)
    requires Coherent(s) && s.phase.Leased? && event.stream in s.phase.lease.children
    ensures SessionOutcome(s, event.stream, SessionBytes(s, event, answers))
    ensures EndedTruly(s, event.stream, SessionBytes(s, event, answers))
  {
    hide LiveTimers, Slots, Scan, UpdateFrameTimer, TakeBatch, ReadHello, ReadBatch, ChildError;
    var id := event.stream;
    var child := s.phase.lease.children[id];
    var (decoder, pushed) := PushSpec(child.decoder, event.bytes);
    if pushed.Err? {
      BrokenChildApart(s, id, decoder, CoreError(pushed.error, None, None));
    } else {
      SessionFrameKeeps(s, id, decoder);
      ChildTimersAreOf(s, id);
      FrameTimerApart(s, id, Incomplete(decoder), child.frameTimer);
      var t := UpdateFrameTimer(s, Incomplete(decoder), child.frameTimer, SessionFrame(id));
      var child1 := child.(decoder := decoder, frameTimer := t.slot);
      var s1 := SetChild(t.s, id, child1);
      var held := SetChild(s1, id, child1.(phase := Gone));
      SetApart(t.s, id, child1);
      SetApart(s1, id, child1.(phase := Gone));
      ChildChanges(s1, id, child1.(phase := Gone));
      if pushed.value != [] && !t.failed {
        SessionFramesApart(s, held, id, child.phase, |pushed.value|, answers, t.started);
      }
    }
  }

  lemma SessionFramesApart(s: State, held: State, id: u64, phase: ChildPhase, frames: nat, answers: Answers,
                           started: Option<u64>)
    requires Coherent(held) && s.phase.Leased? && id in s.phase.lease.children
    requires Apart(s, id, held) && id in held.phase.lease.children && Applications(held, id) == Applications(s, id)
    requires frames > 0
    ensures phase.AwaitM2? ==>
              var d := ReadHello(held, id, frames, answers, started); SessionOutcome(s, id, d) && EndedTruly(s, id, d)
    ensures phase.AwaitFinished? && answers.finished.Some? ==>
              var d := ChildError(held, id, answers.finished.value); SessionOutcome(s, id, d) && EndedTruly(s, id, d)
    ensures forall batch :: SessionOutcome(s, id, TakeBatch(held, id, batch, started))
                            && EndedTruly(s, id, TakeBatch(held, id, batch, started))
  {
    hide Coherent, TakeBatch, ReadHello, ChildError, SessionOutcome, EndedTruly, Applications;
    ReadHelloApart(held, id, frames, answers, started);
    Onward(s, id, held, ReadHello(held, id, frames, answers, started));
    if answers.finished.Some? {
      ChildErrorApart(held, id, answers.finished.value);
      Onward(s, id, held, ChildError(held, id, answers.finished.value));
    }
    forall batch ensures SessionOutcome(s, id, TakeBatch(held, id, batch, started))
                         && EndedTruly(s, id, TakeBatch(held, id, batch, started)) {
      TakeBatchApart(held, id, batch, started);
      Onward(s, id, held, TakeBatch(held, id, batch, started));
    }
  }

  lemma BrokenChildApart(s: State, id: u64, decoder: DecoderState, error: CoreError)
    requires Coherent(s) && s.phase.Leased? && id in s.phase.lease.children && error.closeFrame.None?
    ensures var d := ChildError(SetChild(s, id, s.phase.lease.children[id].(decoder := decoder)), id, error);
            SessionOutcome(s, id, d) && EndedTruly(s, id, d)
  {
    hide Coherent;
    var c := s.phase.lease.children[id];
    EndChildApart(s, id, error.reason, error.peerClose);
    assert s.phase.lease.children[id := c.(decoder := decoder)] - {id} == s.phase.lease.children - {id};
  }

  // ---- The theorems ----------------------------------------------------

  /** The events of one child session: its stream's, and its own timers. */
  predicate Concerns(s: State, event: Event, id: u64) {
    && s.phase.Leased? && id != s.phase.lease.leaseStream
    && match event.tag
       case TimerFired => event.token in s.timers && Of(id, s.timers[event.token])
       case FullWriteCommitted => event.stream == id
       case SessionAccepted => event.stream == id
       case RuntimeResponse => event.stream == id
       case StreamBytes => event.stream == id
       case StreamEof => event.stream == id
       case StreamIoFailed => event.stream == id
       case StreamCloseNormal => event.stream == id
       case _ => false
  }

  /** Whatever happens to one session, the lease, every other session and every
      other timer stay as they were. */
  lemma SessionsAreIsolated(s: State, event: Event, answers: Answers, id: u64)
    requires Coherent(s) && Concerns(s, event, id)
    ensures SessionOutcome(s, id, Drive(s, event, answers))
    ensures !event.tag.FullWriteCommitted? ==> EndedTruly(s, id, Drive(s, event, answers))
  {
    hide LiveTimers, Slots, SessionBytes, Accepted, Responded, CommittedChild, EndChild, ChildError, ChildEnd,
         FiredChild;
    hide Apart, SessionOutcome, EndedTruly;
    Unmoved(s, id);
    match event.tag {
      case TimerFired => FiredApart(s, event, id);
      case FullWriteCommitted => CommittedChildApart(s, id, event.token);
      case SessionAccepted => AcceptedApart(s, event, answers); AcceptedEnds(s, event, answers);
      case RuntimeResponse => RespondedApart(s, event, answers);
      case StreamBytes =>
        if id in s.phase.lease.children {
          SessionBytesApart(s, event, answers);
        }
      case _ => ClosedStreamApart(s, event, answers);
    }
  }

  lemma Unmoved(s: State, id: u64)
    requires s.phase.Leased?
    ensures forall e :: SessionOutcome(s, id, Driven(s, Err(e))) && EndedTruly(s, id, Driven(s, Err(e)))
  {
  }

  lemma AcceptedEnds(s: State, event: Event, answers: Answers)
    ensures EndedTruly(s, event.stream, Accepted(s, event, answers))
  {
  }

  lemma FiredApart(s: State, event: Event, id: u64)
    requires Coherent(s) && s.phase.Leased? && event.token in s.timers && Of(id, s.timers[event.token])
    ensures SessionOutcome(s, id, Fired(s, event)) && EndedTruly(s, id, Fired(s, event))
    ensures event.stream == 0 && event.bytes == [] && event.token != 0 ==>
              && id in s.phase.lease.children
              && Fired(s, event).result.Ok? && Fired(s, event).result.value.kind.SessionTerminal?
  {
    hide LiveTimers, Slots, EndChild, FiredChild, Apart, SessionOutcome, EndedTruly;
    Unmoved(s, id);
    var reason := if s.timers[event.token].SessionIdle? then Stale else Timeout;
    FiredChildEnds(s, event.token, id, reason);
    EndChildApart(s, id, reason, None);
  }

  lemma ClosedStreamApart(s: State, event: Event, answers: Answers)
    requires Coherent(s) && s.phase.Leased? && event.stream != s.phase.lease.leaseStream
    ensures SessionOutcome(s, event.stream, ClosedStream(s, event, answers))
    ensures EndedTruly(s, event.stream, ClosedStream(s, event, answers))
  {
    hide LiveTimers, Slots, EndChild, ChildError, ChildEnd, Apart, SessionOutcome, EndedTruly;
    var id := event.stream;
    Unmoved(s, id);
    if id in s.phase.lease.children {
      var error := ChildEnd(s.phase.lease.children[id], answers);
      if error.Some? {
        ChildErrorApart(s, id, error.value);
      }
      EndChildApart(s, id, if event.tag.StreamCloseNormal? then Normal else PeerClosed, None);
    }
  }

  /** The supervisor is terminal exactly when it says so, with the same words,
      and then no timer is left; no failure parks it on the placeholder. */
  predicate EndReported(d: Driven) {
    && (d.s.phase.Terminated? <==> d.result.Ok? && d.result.value.kind.LeaseTerminal?)
    && (d.s.phase.Terminated? ==>
          d.result.value == EndOutcome(LeaseTerminal, 0, d.s.phase.terminal) && d.s.timers == map[])
  }

  lemma BootstrapEndReported(s: State, event: Event, answers: Answers)
    requires Coherent(s) && !s.phase.Leased? && !s.phase.Terminated?
    ensures EndReported(Connected(s, event, answers))
    ensures EndReported(Committed(s, event))
    ensures EndReported(ClosedStream(s, event, answers))
    ensures EndReported(Bytes(s, event, answers))
    ensures EndReported(Fired(s, event))
    ensures EndReported(Driven(s, Err(InvalidArgument)))
    ensures Accepted(s, event, answers).s == s && Accepted(s, event, answers).result.Err?
    ensures Responded(s, event, answers).s == s && Responded(s, event, answers).result.Err?
  {
    hide Scan;
    if event.token in s.timers {
      assert Holds(s.phase, event.token, s.timers[event.token]);
    }
  }

  lemma LeaseEndReported(s: State, event: Event, answers: Answers)
    requires Coherent(s) && s.phase.Leased?
    ensures EndReported(Connected(s, event, answers))
    ensures EndReported(LeaseBytes(s, event, answers))
    ensures event.stream == s.phase.lease.leaseStream ==>
              EndReported(Committed(s, event)) && EndReported(ClosedStream(s, event, answers))
  {
    hide Scan, LiveTimers, Slots, LeaseHandoff, ChildError, EndChild;
  }

  lemma FiredEndReported(s: State, event: Event)
    requires Coherent(s) && s.phase.Leased?
    ensures EndReported(Fired(s, event))
  {
    hide LiveTimers, Slots, LeaseHandoff, EndChild, FiredChild, SessionOutcome;
    if event.token in s.timers {
      var a := s.timers[event.token];
      if a.SessionPhase? || a.SessionIdle? || a.SessionFrame? {
        FiredApart(s, event, a.stream);
        OutcomeIsNoEnd(s, a.stream, Fired(s, event));
      }
    }
  }

  lemma OutcomeIsNoEnd(s: State, id: u64, d: Driven)
    requires SessionOutcome(s, id, d)
    ensures EndReported(d)
  {
  }

  lemma EndIsReported(s: State, event: Event, answers: Answers)
    requires Coherent(s)
    ensures EndReported(Drive(s, event, answers))
  {
    hide LiveTimers, Slots, LeaseHandoff, SessionOutcome, EndedTruly, Fired, Connected, Committed, Accepted, Responded;
    hide Bytes, ClosedStream, LeaseBytes;
    if s.phase.Leased? {
      LeaseEndReported(s, event, answers);
      FiredEndReported(s, event);
      if event.stream == s.phase.lease.leaseStream {
        OnLeaseStream(s, event, answers);
      } else if Concerns(s, event, event.stream) && !event.tag.TimerFired? {
        SessionsAreIsolated(s, event, answers, event.stream);
        OutcomeIsNoEnd(s, event.stream, Drive(s, event, answers));
      }
    } else if !s.phase.Terminated? {
      BootstrapEndReported(s, event, answers);
    } else {
      assert s.timers == map[] by { DeadHasNoTimers(s); }
    }
  }

  lemma DeadHasNoTimers(s: State)
    requires Coherent(s) && s.phase.Terminated?
    ensures s.timers == map[]
  {
  }

  lemma OnLeaseStream(s: State, event: Event, answers: Answers)
    requires Coherent(s) && s.phase.Leased? && event.stream == s.phase.lease.leaseStream
    ensures EndReported(Accepted(s, event, answers))
    ensures EndReported(Responded(s, event, answers))
    ensures EndReported(LeaseBytes(s, event, answers)) ==> EndReported(Bytes(s, event, answers))
  {
    hide LiveTimers, LeaseBytes;
  }

  /** After the end every drive repeats it, whatever the event. */
  lemma EndIsForever(s: State, event: Event, answers: Answers, later: seq<Step>, event': Event, answers': Answers)
    requires Coherent(s)
    requires var d := Drive(s, event, answers); d.result.Ok? && d.result.value.kind.LeaseTerminal?
    ensures var d := Drive(s, event, answers);
            && Drives(d.s, later) == d.s
            && Drive(d.s, event', answers') == d
            && d.s.timers == map[]
  {
    hide Drive, Drives;
    EndIsReported(s, event, answers);
    StaysDead(Drive(s, event, answers).s, later, event', answers');
  }

  lemma {:induction false} StaysDead(s: State, later: seq<Step>, event: Event, answers: Answers)
    requires s.phase.Terminated?
    ensures Drives(s, later) == s
    ensures Drive(s, event, answers) == Driven(s, Ok(EndOutcome(LeaseTerminal, 0, s.phase.terminal)))
    decreases |later|
  {
    if later != [] {
      StaysDead(s, later[1..], event, answers);
    }
  }

  // ---- Which timers end something --------------------------------------

  function Fire(token: u64): Event {
    Event(TimerFired, 0, 0, token, [])
  }

  /** Some session, or the lease and everything with it. */
  ghost predicate SomethingEnded(s: State, d: Driven) {
    && d.result.Ok?
    && (|| (d.result.value.kind.LeaseTerminal? && d.s.phase.Terminated?)
        || (&& d.result.value.kind.SessionTerminal? && s.phase.Leased? && d.s.phase.Leased?
            && d.result.value.stream in s.phase.lease.children
            && d.result.value.stream !in d.s.phase.lease.children))
  }

  /** Firing a listed token ends a session or the lease; firing any other token,
      live or not, ends nothing. */
  lemma TerminalTokensAreExact(s: State, token: u64, answers: Answers)
    requires Coherent(s) && !s.phase.Terminated? && token != 0
    ensures token in TerminalTimerTokens(s) ==> SomethingEnded(s, Drive(s, Fire(token), answers))
    ensures token !in TerminalTimerTokens(s) ==>
              var d := Drive(s, Fire(token), answers);
              && !SomethingEnded(s, d)
              && !d.s.phase.Terminated?
              && (s.phase.Leased? ==> d.s.phase.Leased? && d.s.phase.lease.children == s.phase.lease.children)
  {
    hide LiveTimers, Slots, LeaseHandoff, EndChild, SessionOutcome, FiredChild;
    if token in s.timers {
      OwnerIsAlive(s, token);
      var a := s.timers[token];
      if a.SessionPhase? || a.SessionIdle? || a.SessionFrame? {
        FiredApart(s, Fire(token), a.stream);
        SessionGone(s, a.stream, Fired(s, Fire(token)));
      } else if a.LeaseTick? {
        TickEnds(s, token);
      }
    }
  }

  lemma OwnerIsAlive(s: State, token: u64)
    requires Coherent(s) && token in s.timers
    ensures Holds(s.phase, token, s.timers[token])
  {
  }

  lemma SessionGone(s: State, id: u64, d: Driven)
    requires s.phase.Leased? && id in s.phase.lease.children && SessionOutcome(s, id, d) && EndedTruly(s, id, d)
    requires d.result.Ok? && d.result.value.kind.SessionTerminal?
    ensures SomethingEnded(s, d)
  {
  }

  lemma TickEnds(s: State, token: u64)
    requires Coherent(s) && token in s.timers && s.timers[token].LeaseTick?
    ensures var d := Ticked(Cancel(s, Some(token)), token);
            && s.phase.Leased? && s.phase.lease.leaseTickTimer == Some(token)
            && (if EndsSomething(s, token) then SomethingEnded(s, d)
                else
                  && !SomethingEnded(s, d) && d.s.phase.Leased?
                  && d.s.phase.lease.children == s.phase.lease.children
                  && d.s.phase.lease.leaseTicks == s.phase.lease.leaseTicks + 1
                  && d.s.phase.lease.missedTicks == s.phase.lease.missedTicks + 1)
  {
    hide LeaseHandoff;
    OwnerIsAlive(s, token);
  }

  // ---- How long a lease can last ---------------------------------------

  /** An effective tick: the one the lease is waiting for. */
  predicate Ticks(s: State, event: Event) {
    && s.phase.Leased?
    && event == Fire(event.token) && event.token != 0
    && event.token in s.timers && s.timers[event.token].LeaseTick?
  }

  /** A heartbeat was answered. */
  predicate Beats(s: State, step: Step) {
    && s.phase.Leased? && step.event.stream == s.phase.lease.leaseStream && step.event.tag.StreamBytes?
    && (var d := Drive(s, step.event, step.answers);
        (d.result.Ok? && d.result.value.kind.WriteFrames?) || d.result == Err(Internal))
  }

  function TickCount(s: State, steps: seq<Step>): nat
    decreases |steps|
  {
    if steps == [] then 0
    else
      (if Ticks(s, steps[0].event) then 1 else 0)
      + TickCount(Drive(s, steps[0].event, steps[0].answers).s, steps[1..])
  }

  function TicksLeft(s: State): nat {
    if s.phase.Leased?
    then (if s.phase.lease.leaseTicks < LEASE_TICKS then LEASE_TICKS - s.phase.lease.leaseTicks else 0)
    else if s.phase.Terminated? then 0 else LEASE_TICKS
  }

  function MissesLeft(s: State): nat {
    if s.phase.Leased?
    then (if s.phase.lease.missedTicks < MISSED_TICKS then MISSED_TICKS - s.phase.lease.missedTicks else 0)
    else if s.phase.Terminated? then 0 else MISSED_TICKS
  }

  /** No step but a tick touches the tick counts, and only a heartbeat resets the misses. */
  lemma OneTick(s: State, step: Step)
    requires Coherent(s)
    ensures var s' := Drive(s, step.event, step.answers).s;
            var tick := if Ticks(s, step.event) then 1 else 0;
            && TicksLeft(s') + tick <= TicksLeft(s)
            && (!Beats(s, step) ==> MissesLeft(s') + tick <= MissesLeft(s))
  {
    hide LiveTimers, Slots, LeaseHandoff, SessionOutcome, EndedTruly, Fired, Connected, Committed, Accepted, Responded;
    hide Bytes, ClosedStream;
    var event := step.event;
    var d := Drive(s, event, step.answers);
    EndIsReported(s, event, step.answers);
    CountsAreSmall(s);
    if d.s.phase.Terminated? {
    } else if !s.phase.Leased? {
      FreshLease(s, event, step.answers);
    } else if event.tag.TimerFired? {
      FiredCounts(s, event);
    } else if event.stream == s.phase.lease.leaseStream {
      LeaseCounts(s, event, step.answers);
    } else if Concerns(s, event, event.stream) {
      SessionsAreIsolated(s, event, step.answers, event.stream);
      SameLease(s, event.stream, d);
    } else {
      OtherCounts(s, event, step.answers);
    }
  }

  lemma CountsAreSmall(s: State)
    requires Coherent(s)
    ensures s.phase.Leased? ==> s.phase.lease.leaseTicks < LEASE_TICKS && s.phase.lease.missedTicks < MISSED_TICKS
  {
  }

  lemma SameLease(s: State, id: u64, d: Driven)
    requires s.phase.Leased? && SessionOutcome(s, id, d)
    ensures d.s.phase.Leased? && d.s.phase.lease.leaseTicks == s.phase.lease.leaseTicks
    ensures d.s.phase.lease.missedTicks == s.phase.lease.missedTicks
  {
  }

  lemma FreshLease(s: State, event: Event, answers: Answers)
    requires Coherent(s) && !s.phase.Leased?
    ensures var d := Drive(s, event, answers);
            d.s.phase.Leased? ==> d.s.phase.lease.leaseTicks == d.s.phase.lease.missedTicks == 0
    ensures TicksLeft(Drive(s, event, answers).s) <= TicksLeft(s)
    ensures MissesLeft(Drive(s, event, answers).s) <= MissesLeft(s)
  {
    hide Scan, LiveTimers;
  }

  lemma FiredCounts(s: State, event: Event)
    requires Coherent(s) && s.phase.Leased? && event.tag.TimerFired?
    ensures Fired(s, event).s.phase.Leased? || Fired(s, event).s.phase.Terminated?
    ensures var s' := Fired(s, event).s;
            s'.phase.Leased? && event.flags == 0 ==>
              var tick := if Ticks(s, event) then 1 else 0;
              && s'.phase.lease.leaseTicks == s.phase.lease.leaseTicks + tick
              && s'.phase.lease.missedTicks == s.phase.lease.missedTicks + tick
  {
    hide LiveTimers, Slots, LeaseHandoff, EndChild, SessionOutcome, FiredChild;
    if event.token in s.timers {
      var a := s.timers[event.token];
      if a.SessionPhase? || a.SessionIdle? || a.SessionFrame? {
        FiredApart(s, event, a.stream);
        SameLease(s, a.stream, Fired(s, event));
      } else if a.LeaseTick? {
        TickEnds(s, event.token);
      }
    }
  }

  lemma LeaseCounts(s: State, event: Event, answers: Answers)
    requires Coherent(s) && s.phase.Leased? && event.stream == s.phase.lease.leaseStream && !event.tag.TimerFired?
    ensures Drive(s, event, answers).s.phase.Leased? || Drive(s, event, answers).s.phase.Terminated?
    ensures var s' := Drive(s, event, answers).s;
            s'.phase.Leased? ==>
              && s'.phase.lease.leaseTicks == s.phase.lease.leaseTicks
              && (s'.phase.lease.missedTicks == s.phase.lease.missedTicks || Beats(s, Step(event, answers)))
  {
    hide Scan, LiveTimers, LeaseHandoff;
  }

  lemma OtherCounts(s: State, event: Event, answers: Answers)
    requires Coherent(s) && s.phase.Leased? && !event.tag.TimerFired? && !Concerns(s, event, event.stream)
    requires event.stream != s.phase.lease.leaseStream
    ensures Drive(s, event, answers).s == s || Drive(s, event, answers).s.phase.Terminated?
  {
    hide LiveTimers, Slots, LeaseHandoff;
  }

  /** A lease sees at most thirty effective ticks. */
  lemma {:induction false} LeaseIsBounded(s: State, steps: seq<Step>)
    requires Coherent(s)
    ensures TickCount(s, steps) <= TicksLeft(s) <= LEASE_TICKS
    decreases |steps|
  {
    hide Coherent, Drive, Ticks;
    if steps != [] {
      DriveKeeps(s, steps[0].event, steps[0].answers);
      OneTick(s, steps[0]);
      LeaseIsBounded(Drive(s, steps[0].event, steps[0].answers).s, steps[1..]);
    }
  }

  predicate Beatless(s: State, steps: seq<Step>)
    decreases |steps|
  {
    steps == [] || (!Beats(s, steps[0]) && Beatless(Drive(s, steps[0].event, steps[0].answers).s, steps[1..]))
  }

  /** Without a heartbeat it sees at most four. */
  lemma {:induction false} SilenceIsBounded(s: State, steps: seq<Step>)
    requires Coherent(s) && Beatless(s, steps)
    ensures TickCount(s, steps) <= MissesLeft(s) <= MISSED_TICKS
    decreases |steps|
  {
    hide Coherent, Drive, Ticks, Beats;
    if steps != [] {
      DriveKeeps(s, steps[0].event, steps[0].answers);
      OneTick(s, steps[0]);
      SilenceIsBounded(Drive(s, steps[0].event, steps[0].answers).s, steps[1..]);
    }
  }

  // ---- Hand-off truth --------------------------------------------------

  /** Bytes for a session the supervisor knows. */
  predicate ToSession(s: State, event: Event) {
    && s.phase.Leased? && event.flags == 0 && event.tag.StreamBytes?
    && event.stream != 0 && event.token == 0 && event.bytes != []
    && event.stream != s.phase.lease.leaseStream && event.stream in s.phase.lease.children
  }

  function Addressed(s: State, event: Event): Child
    requires ToSession(s, event)
  {
    s.phase.lease.children[event.stream]
  }

  /** What the bytes make of those the session's decoder still held. */
  function Arriving(s: State, event: Event): Scanned
    requires ToSession(s, event)
  {
    var decoder := Addressed(s, event).decoder;
    if decoder.Live? then Scan(decoder.tail + event.bytes) else Broken
  }

  /** A frame timer that has to be started can be. */
  predicate TimerToSpare(s: State, slot: Option<u64>, tail: seq<byte>) {
    tail == [] || slot.Some? || s.nextToken < U64_MAX
  }

  /** What the core makes of the frames that have arrived. */
  function BatchFor(phase: ChildPhase, answers: Answers, n: nat): Batch
    requires n > 0
  {
    if phase.AwaitFinished? then
      if answers.finished.Some? then Failing(answers.finished.value) else ReadBatch(answers, 1, n, None)
    else if phase.AwaitApplication? then ReadBatch(answers, 0, n, None)
    else Quiet
  }

  /** An application is read and counted, but no token is left for its deadline:
      the call fails and the application is not handed out. */
  predicate CutOff(s: State, event: Event, answers: Answers) {
    && ToSession(s, event) && s.nextToken == U64_MAX
    && Arriving(s, event).Scanned? && Arriving(s, event).frames != []
    && (Arriving(s, event).tail == [] || Addressed(s, event).frameTimer.Some?)
    && Addressed(s, event).applications < U64_MAX
    && BatchFor(Addressed(s, event).phase, answers, |Arriving(s, event).frames|).One?
  }

  /** Cut-off applications per stream since that stream was last accepted. */
  function CutOffs(cut: map<u64, nat>, s: State, event: Event, answers: Answers): map<u64, nat> {
    if event.tag.SessionAccepted? && Drive(s, event, answers).result.Ok? then cut[event.stream := 0]
    else if CutOff(s, event, answers) then
      cut[event.stream := (if event.stream in cut then cut[event.stream] else 0) + 1]
    else cut
  }

  function CutAfter(s: State, cut: map<u64, nat>, steps: seq<Step>): map<u64, nat>
    decreases |steps|
  {
    if steps == [] then cut
    else
      CutAfter(Drive(s, steps[0].event, steps[0].answers).s, CutOffs(cut, s, steps[0].event, steps[0].answers),
               steps[1..])
  }

  /** Application outcomes per stream since that stream was last accepted. */
  function Observed(log: map<u64, nat>, event: Event, d: Driven): map<u64, nat> {
    if d.result.Err? then log
    else
      var o := d.result.value;
      if event.tag.SessionAccepted? && o.kind.WriteFrames? then log[event.stream := 0]
      else if o.kind.Application? then log[o.stream := (if o.stream in log then log[o.stream] else 0) + 1]
      else log
  }

  function LogAfter(s: State, log: map<u64, nat>, steps: seq<Step>): map<u64, nat>
    decreases |steps|
  {
    if steps == [] then log
    else
      var d := Drive(s, steps[0].event, steps[0].answers);
      LogAfter(d.s, Observed(log, steps[0].event, d), steps[1..])
  }

  /** Each session counts exactly its Application outcomes and those cut off. */
  predicate Logged(s: State, log: map<u64, nat>, cut: map<u64, nat>) {
    s.phase.Leased? ==>
      forall id :: id in s.phase.lease.children ==>
        id in log && id in cut && log[id] + cut[id] == s.phase.lease.children[id].applications
  }

  function Gained(s: State, event: Event, answers: Answers): nat {
    var d := Drive(s, event, answers);
    (if d.result.Ok? && d.result.value.kind.Application? then 1 else 0) + (if CutOff(s, event, answers) then 1 else 0)
  }

  /** A session's own event moves its count exactly by what is handed out or cut off. */
  lemma CountsExactly(s: State, event: Event, answers: Answers, id: u64)
    requires Coherent(s) && Concerns(s, event, id) && id in s.phase.lease.children
    ensures var d := Drive(s, event, answers);
            && d.s.phase.Leased?
            && (id in d.s.phase.lease.children ==>
                  d.s.phase.lease.children[id].applications
                  == s.phase.lease.children[id].applications + Gained(s, event, answers))
            && (CutOff(s, event, answers) ==> event.stream == id && d.result.Err?)
  {
    hide LiveTimers, Slots, SessionOutcome, EndedTruly, SessionBytes, CommittedChild, EndChild, ChildError, ChildEnd;
    hide Scan, ReadBatch;
    SessionsAreIsolated(s, event, answers, id);
    StaysLeased(s, id, Drive(s, event, answers));
    if ToSession(s, event) {
      BytesCount(s, event, answers);
    } else if event.tag.FullWriteCommitted? {
      CommitCounts(s, id, event.token);
    } else {
      OwnersCount(s, event, answers, id);
    }
  }

  lemma StaysLeased(s: State, id: u64, d: Driven)
    requires SessionOutcome(s, id, d)
    ensures d.s.phase.Leased?
  {
  }

  lemma CommitCounts(s: State, id: u64, token: u64)
    requires s.phase.Leased? && id in s.phase.lease.children
    ensures var d := CommittedChild(s, id, token);
            && d.s.phase.Leased? && id in d.s.phase.lease.children
            && d.s.phase.lease.children[id].applications == s.phase.lease.children[id].applications
            && (d.result.Ok? ==> !d.result.value.kind.Application?)
  {
  }

  lemma OwnersCount(s: State, event: Event, answers: Answers, id: u64)
    requires Coherent(s) && Concerns(s, event, id) && id in s.phase.lease.children
    requires !event.tag.FullWriteCommitted? && !ToSession(s, event)
    ensures var d := Drive(s, event, answers);
            && (d.s.phase.Leased? && id in d.s.phase.lease.children ==>
                  d.s.phase.lease.children[id].applications == s.phase.lease.children[id].applications)
            && (d.result.Ok? ==> !d.result.value.kind.Application?)
  {
    hide LiveTimers, Slots, SessionBytes, CommittedChild, LeaseBytes, ChildEnd;
  }

  lemma BytesCount(s: State, event: Event, answers: Answers)
    requires Coherent(s) && ToSession(s, event)
    ensures var d, id := SessionBytes(s, event, answers), event.stream;
            && (d.s.phase.Leased? && id in d.s.phase.lease.children ==>
                  d.s.phase.lease.children[id].applications
                  == s.phase.lease.children[id].applications
                     + (if d.result.Ok? && d.result.value.kind.Application? then 1 else 0)
                     + (if CutOff(s, event, answers) then 1 else 0))
            && (CutOff(s, event, answers) ==> d.result.Err?)
  {
    hide Coherent, Scan, ReadBatch, TakeBatch, ChildError, ReadHello;
    var id := event.stream;
    var c := Addressed(s, event);
    DecoderIsLive(s, id);
    if Arriving(s, event).Broken? {
      ReadingCounts(SetChild(s, id, c.(decoder := Failed)), id, CoreError(Malformed, None, None), 0, Quiet, answers,
                    None);
    } else {
      var decoder, n := Live(Arriving(s, event).tail), |Arriving(s, event).frames|;
      var t := UpdateFrameTimer(s, Incomplete(decoder), c.frameTimer, SessionFrame(id));
      var c1 := c.(decoder := decoder, frameTimer := t.slot);
      var held := SetChild(SetChild(t.s, id, c1), id, c1.(phase := Gone));
      if n > 0 && !t.failed {
        var error := if answers.finished.Some? then answers.finished.value else CoreError(Malformed, None, None);
        ReadingCounts(held, id, error, n, BatchFor(c.phase, answers, n), answers, t.started);
      }
    }
  }

  lemma DecoderIsLive(s: State, id: u64)
    requires Coherent(s) && s.phase.Leased? && id in s.phase.lease.children
    ensures s.phase.lease.children[id].decoder.Live? && s.nextToken > 0
  {
  }

  /** Only taking a batch with an application moves the count. */
  lemma ReadingCounts(s: State, id: u64, error: CoreError, n: nat, batch: Batch, answers: Answers, started: Option<u64>)
    requires s.phase.Leased? && id in s.phase.lease.children && s.nextToken > 0
    ensures SameCount(s, id, ChildError(s, id, error)) && SameCount(s, id, ReadHello(s, id, n, answers, started))
    ensures var d := TakeBatch(s, id, batch, started);
            if batch.One? && s.phase.lease.children[id].applications < U64_MAX then
              && d.s.phase.Leased? && id in d.s.phase.lease.children
              && d.s.phase.lease.children[id].applications == s.phase.lease.children[id].applications + 1
              && (if started.None? && s.nextToken == U64_MAX then d.result.Err?
                  else d.result.Ok? && d.result.value.kind.Application?)
            else SameCount(s, id, d)
  {
    hide ChildError, HandOver;
    ErrorCounts(s, id, error);
    if answers.helloM2.Err? {
      ErrorCounts(s, id, answers.helloM2.error);
    }
    if batch.Failing? {
      ErrorCounts(s, id, batch.error);
    } else if batch.One? && s.phase.lease.children[id].applications < U64_MAX {
      var c := s.phase.lease.children[id];
      HandOverCounts(SetChild(s, id, c.(phase := AwaitRuntime, applications := c.applications + 1)), id, batch.bytes,
                     started);
    }
  }

  lemma ErrorCounts(s: State, id: u64, error: CoreError)
    requires s.phase.Leased? && id in s.phase.lease.children
    ensures SameCount(s, id, ChildError(s, id, error))
  {
  }

  lemma HandOverCounts(s: State, id: u64, bytes: seq<byte>, started: Option<u64>)
    requires s.phase.Leased? && id in s.phase.lease.children && s.nextToken > 0
    ensures var d := HandOver(s, id, bytes, started);
            && d.s.phase.Leased? && id in d.s.phase.lease.children
            && d.s.phase.lease.children[id].applications == s.phase.lease.children[id].applications
            && (if started.None? && s.nextToken == U64_MAX then d.result.Err?
                else d.result.Ok? && d.result.value.kind.Application?)
  {
  }

  predicate SameCount(s: State, id: u64, d: Driven)
    requires s.phase.Leased? && id in s.phase.lease.children
  {
    && (d.result.Ok? ==> !d.result.value.kind.Application?)
    && (d.s.phase.Leased? && id in d.s.phase.lease.children ==>
          d.s.phase.lease.children[id].applications == s.phase.lease.children[id].applications)
  }

  lemma SessionLogged(s: State, id: u64, event: Event, answers: Answers, log: map<u64, nat>, cut: map<u64, nat>)
    requires var d := Drive(s, event, answers);
             && Coherent(s) && Concerns(s, event, id) && Logged(s, log, cut) && SessionOutcome(s, id, d)
             && (event.tag.SessionAccepted? ==> event.stream == id)
             && (event.tag.SessionAccepted? && d.result.Ok? ==>
                   d.result.value.kind.WriteFrames? && Applications(d.s, id) == 0 && id !in s.phase.lease.children)
             && (id !in s.phase.lease.children && id in d.s.phase.lease.children ==>
                   event.tag.SessionAccepted? && d.result.Ok?)
    ensures var d := Drive(s, event, answers);
            Logged(d.s, Observed(log, event, d), CutOffs(cut, s, event, answers))
  {
    hide Coherent, Concerns, Drive, CutOff;
    var d := Drive(s, event, answers);
    if id in s.phase.lease.children {
      CountsExactly(s, event, answers, id);
    } else {
      NoCutOffElsewhere(s, event, answers, id);
    }
    forall k | k in d.s.phase.lease.children && k != id
      ensures k in s.phase.lease.children && d.s.phase.lease.children[k] == s.phase.lease.children[k]
    {
      assert k in OtherChildren(d.s, id);
      assert OtherChildren(d.s, id)[k] == OtherChildren(s, id)[k];
    }
  }

  lemma LeaseCutsNothing(s: State, event: Event, answers: Answers, cut: map<u64, nat>)
    requires s.phase.Leased? && !Concerns(s, event, event.stream)
    ensures CutOffs(cut, s, event, answers) == cut
  {
    hide Coherent;
  }

  lemma NoCutOffElsewhere(s: State, event: Event, answers: Answers, id: u64)
    requires Coherent(s) && Concerns(s, event, id) && id !in s.phase.lease.children
    ensures !CutOff(s, event, answers)
  {
    hide Coherent;
  }

  /** Only an accepted stream becomes a session. */
  lemma NoNewSession(s: State, event: Event, answers: Answers, id: u64)
    requires Coherent(s) && Concerns(s, event, id) && id !in s.phase.lease.children && !event.tag.SessionAccepted?
    ensures Drive(s, event, answers).s == s && Drive(s, event, answers).result.Err?
  {
    hide LiveTimers;
    if event.tag.TimerFired? {
      OwnerIsAlive(s, event.token);
    }
  }

  /** No token is ever given out twice, for a write or for a timer. */
  lemma TokensGrow(s: State, event: Event, answers: Answers)
    requires Coherent(s)
    ensures TokensRight(s, Drive(s, event, answers))
  {
    hide LiveTimers, Slots, SessionOutcome, EndedTruly, Fired, Committed, Accepted, Responded;
    hide Bytes, ClosedStream;
    var d := Drive(s, event, answers);
    if s.phase.Leased? {
      if event.tag.TimerFired? && event.token in s.timers && IsSession(s.timers[event.token]) {
        SessionTimerOwned(s, event.token);
      }
      var id := if event.tag.TimerFired? && event.token in s.timers && IsSession(s.timers[event.token])
                then s.timers[event.token].stream else event.stream;
      if Concerns(s, event, id) {
        SessionsAreIsolated(s, event, answers, id);
        SessionTokens(s, id, d);
      } else {
        LeaseTokens(s, event, answers);
      }
    } else {
      EarlyTokens(s, event, answers);
    }
  }

  lemma SessionTokens(s: State, id: u64, d: Driven)
    requires SessionOutcome(s, id, d)
    ensures TokensRight(s, d)
  {
  }

  predicate TokensRight(s: State, d: Driven) {
    && TokensAdvance(s, d.s)
    && (d.result.Ok? && d.result.value.kind.WriteFrames? ==>
          s.nextToken <= d.result.value.token < d.s.nextToken && d.result.value.token !in d.s.timers)
  }

  lemma SessionTimerOwned(s: State, token: u64)
    requires Coherent(s) && token in s.timers && IsSession(s.timers[token])
    ensures s.phase.Leased? && s.timers[token].stream in s.phase.lease.children
    ensures s.timers[token].stream != s.phase.lease.leaseStream
  {
    OwnerIsAlive(s, token);
  }

  lemma LeaseStreamIsNoChild(s: State)
    requires Coherent(s) && s.phase.Leased?
    ensures s.phase.lease.leaseStream !in s.phase.lease.children
  {
  }

  lemma LeaseBytesTokensRight(s: State, event: Event, answers: Answers)
    requires s.phase.Leased? && s.nextToken > 0
    requires forall t :: t in s.timers ==> t < s.nextToken
    ensures TokensRight(s, LeaseBytes(s, event, answers))
  {
    hide Scan, LeaseHandoff;
  }

  lemma TickedTokensRight(s: State, token: u64)
    requires s.phase.Leased? && s.nextToken > 0
    ensures TokensRight(s, Ticked(s, token))
  {
    hide LeaseHandoff;
  }

  lemma TimersBelow(s: State)
    requires Coherent(s)
    ensures s.nextToken > 0 && forall t :: t in s.timers ==> t < s.nextToken
  {
  }

  lemma LeaseTokens(s: State, event: Event, answers: Answers)
    requires Coherent(s) && s.phase.Leased? && !Concerns(s, event, event.stream)
    requires event.tag.TimerFired? && event.token in s.timers ==> !IsSession(s.timers[event.token])
    ensures TokensRight(s, Drive(s, event, answers))
  {
    hide LeaseHandoff, LiveTimers, Slots, LeaseBytes, Ticked, SessionBytes, CommittedChild, ChildError, EndChild,
         ChildEnd;
    TimersBelow(s);
    LeaseStreamIsNoChild(s);
    LeaseBytesTokensRight(s, event, answers);
    if event.token in s.timers {
      TickedTokensRight(Cancel(s, Some(event.token)), event.token);
    }
  }

  lemma EarlyTokens(s: State, event: Event, answers: Answers)
    requires Coherent(s) && !s.phase.Leased?
    ensures TokensRight(s, Drive(s, event, answers))
  {
    hide LeaseHandoff, LiveTimers, Slots, LeaseBytes, SessionBytes, CommittedChild, ChildError, EndChild, ChildEnd;
    hide Connected, BootstrapBytes, Admitted;
    TimersBelow(s);
    ConnectedTokens(s, event, answers);
    if s.phase.BootstrapM2? {
      BootstrapBytesTokens(s, event, answers);
    } else if s.phase.BootstrapAckPending? {
      AdmittedTokens(s);
    }
  }

  lemma ConnectedTokens(s: State, event: Event, answers: Answers)
    requires s.nextToken > 0
    requires forall t :: t in s.timers ==> t < s.nextToken
    ensures TokensRight(s, Connected(s, event, answers))
  {
  }

  lemma BootstrapBytesTokens(s: State, event: Event, answers: Answers)
    requires s.phase.BootstrapM2? && s.nextToken > 0
    requires forall t :: t in s.timers ==> t < s.nextToken
    ensures TokensRight(s, BootstrapBytes(s, event, answers))
  {
    hide Scan;
  }

  lemma AdmittedTokens(s: State)
    requires s.phase.BootstrapAckPending?
    ensures TokensRight(s, Admitted(s))
  {
  }

  lemma DriveLogged(s: State, event: Event, answers: Answers, log: map<u64, nat>, cut: map<u64, nat>)
    requires Coherent(s) && Logged(s, log, cut)
    ensures var d := Drive(s, event, answers);
            Logged(d.s, Observed(log, event, d), CutOffs(cut, s, event, answers))
  {
    hide LiveTimers, Slots, SessionOutcome, EndedTruly, Fired, Committed, Accepted, Responded;
    hide Bytes, ClosedStream;
    var d := Drive(s, event, answers);
    if s.phase.Leased? {
      if event.tag.TimerFired? && event.token in s.timers && IsSession(s.timers[event.token]) {
        SessionTimerOwned(s, event.token);
      }
      var id := if event.tag.TimerFired? && event.token in s.timers && IsSession(s.timers[event.token])
                then s.timers[event.token].stream else event.stream;
      if Concerns(s, event, id) {
        SessionsAreIsolated(s, event, answers, id);
        if id !in s.phase.lease.children && !event.tag.SessionAccepted? {
          NoNewSession(s, event, answers, id);
        }
        if event.tag.SessionAccepted? {
          AcceptedApart(s, event, answers);
          if event.flags != 0 {
            assert d.s == s;
          }
        }
        SessionLogged(s, id, event, answers, log, cut);
      } else {
        LeaseEvent(s, event, answers);
        LeaseCutsNothing(s, event, answers, cut);
      }
    } else if !s.phase.Leased? {
      NoSessionYet(s, event, answers);
    }
  }

  predicate IsSession(a: TimerAction) {
    a.SessionPhase? || a.SessionIdle? || a.SessionFrame?
  }

  /** An event of the lease itself leaves every session alone or ends them all. */
  lemma LeaseEvent(s: State, event: Event, answers: Answers)
    requires Coherent(s) && s.phase.Leased? && !Concerns(s, event, event.stream)
    requires event.tag.TimerFired? && event.token in s.timers ==> !IsSession(s.timers[event.token])
    ensures var d := Drive(s, event, answers);
            && (d.s.phase.Terminated? || (d.s.phase.Leased? && d.s.phase.lease.children == s.phase.lease.children))
            && (d.result.Ok? ==> !d.result.value.kind.Application? && !d.result.value.kind.SessionTerminal?
                                 && (d.result.value.kind.WriteFrames? ==> event.tag.StreamBytes?))
  {
    hide Scan, LeaseHandoff, LiveTimers, Slots, SessionBytes, CommittedChild, ChildError, EndChild, ChildEnd;
    LeaseStreamIsNoChild(s);
  }

  lemma NoSessionYet(s: State, event: Event, answers: Answers)
    requires Coherent(s) && !s.phase.Leased?
    ensures var d := Drive(s, event, answers);
            && (d.s.phase.Leased? ==> d.s.phase.lease.children == map[])
            && (d.result.Ok? ==> !d.result.value.kind.SessionTerminal?)
  {
    hide Scan, LiveTimers, SessionBytes, LeaseBytes, CommittedChild, ChildError, EndChild, ChildEnd;
  }

  lemma {:induction false} RunLogged(s: State, log: map<u64, nat>, cut: map<u64, nat>, steps: seq<Step>)
    requires Coherent(s) && Logged(s, log, cut)
    ensures Coherent(Drives(s, steps))
    ensures Logged(Drives(s, steps), LogAfter(s, log, steps), CutAfter(s, cut, steps))
    decreases |steps|
  {
    hide Coherent, Drive, Logged, Observed, CutOffs;
    if steps != [] {
      var d := Drive(s, steps[0].event, steps[0].answers);
      DriveKeeps(s, steps[0].event, steps[0].answers);
      DriveLogged(s, steps[0].event, steps[0].answers, log, cut);
      RunLogged(d.s, Observed(log, steps[0].event, d), CutOffs(cut, s, steps[0].event, steps[0].answers), steps[1..]);
    }
  }

  /** A session's end is always some session's, and one that had been accepted. */
  lemma SessionEndIsASession(s: State, event: Event, answers: Answers)
    requires Coherent(s)
    requires var d := Drive(s, event, answers); d.result.Ok? && d.result.value.kind.SessionTerminal?
    ensures var id := Drive(s, event, answers).result.value.stream;
            s.phase.Leased? && Concerns(s, event, id) && id in s.phase.lease.children
    ensures event.flags == 0
  {
    hide LiveTimers, Slots, SessionOutcome, EndedTruly, Fired, Committed, Accepted, Responded;
    hide Bytes, ClosedStream;
    var d := Drive(s, event, answers);
    if s.phase.Leased? {
      if event.tag.TimerFired? && event.token in s.timers && IsSession(s.timers[event.token]) {
        SessionTimerOwned(s, event.token);
      }
      var id := if event.tag.TimerFired? && event.token in s.timers && IsSession(s.timers[event.token])
                then s.timers[event.token].stream else event.stream;
      if Concerns(s, event, id) {
        SessionsAreIsolated(s, event, answers, id);
        OutcomeStream(s, id, d);
        if id !in s.phase.lease.children {
          if event.tag.SessionAccepted? {
            AcceptedApart(s, event, answers);
          } else {
            NoNewSession(s, event, answers, id);
          }
        }
      } else {
        LeaseEvent(s, event, answers);
      }
    } else {
      NoSessionYet(s, event, answers);
    }
  }

  lemma OutcomeStream(s: State, id: u64, d: Driven)
    requires SessionOutcome(s, id, d) && d.result.Ok? && d.result.value.kind.SessionTerminal?
    ensures d.result.value.stream == id
  {
  }

  lemma LoggedApplications(s: State, log: map<u64, nat>, cut: map<u64, nat>, id: u64)
    requires Logged(s, log, cut) && s.phase.Leased? && id in s.phase.lease.children
    ensures id in log && id in cut && (Truth(s, id).HandoffPossibleOrConfirmed? <==> log[id] > 0 || cut[id] > 0)
  {
  }

  lemma NewIsLogged()
    ensures Logged(NewState(), map[], map[])
  {
  }

  /** Over every run: a session's end reports a hand-off exactly when one of its
      applications was handed out -- unless it is the commit of a last Close of a
      session that had one, where it never does, or the only applications it had
      were cut off at the last token, where it does.  The session is removed
      except at that commit. */
  lemma SessionEndTellsHandoff(steps: seq<Step>, event: Event, answers: Answers)
    requires var d := Drive(Drives(NewState(), steps), event, answers);
             d.result.Ok? && d.result.value.kind.SessionTerminal?
    ensures var s, log := Drives(NewState(), steps), LogAfter(NewState(), map[], steps);
            var cut := CutAfter(NewState(), map[], steps);
            var o := Drive(s, event, answers).result.value;
            && o.stream in log && o.stream in cut
            && ((o.handoff.HandoffPossibleOrConfirmed? <==> log[o.stream] > 0)
                <==> if event.tag.FullWriteCommitted? then log[o.stream] == 0
                     else log[o.stream] > 0 || cut[o.stream] == 0)
    ensures var s := Drives(NewState(), steps);
            var d := Drive(s, event, answers);
            && d.s.phase.Leased?
            && (d.result.value.stream !in d.s.phase.lease.children <==> !event.tag.FullWriteCommitted?)
  {
    hide Coherent, Drive, Logged, Observed, CutOffs, SessionOutcome, EndedTruly;
    NewIsCoherent();
    NewIsLogged();
    RunLogged(NewState(), map[], map[], steps);
    var s, log := Drives(NewState(), steps), LogAfter(NewState(), map[], steps);
    var d := Drive(s, event, answers);
    SessionEndIsASession(s, event, answers);
    var id := d.result.value.stream;
    SessionsAreIsolated(s, event, answers, id);
    LoggedApplications(s, log, CutAfter(NewState(), map[], steps), id);
    if event.tag.FullWriteCommitted? {
      CommittedChildApart(s, id, event.token);
      CommitIsTheChilds(s, event, answers);
    } else {
      TrulyEnded(s, id, d);
    }
  }

  /** Nothing is cut off before the tokens have run out. */
  lemma {:induction false} NothingCutEarly(s: State, cut: map<u64, nat>, steps: seq<Step>)
    requires Coherent(s) && (forall id :: id in cut ==> cut[id] == 0) && Drives(s, steps).nextToken < U64_MAX
    ensures forall id :: id in CutAfter(s, cut, steps) ==> CutAfter(s, cut, steps)[id] == 0
    ensures s.nextToken < U64_MAX
    decreases |steps|
  {
    hide Coherent, Drive;
    if steps != [] {
      var d := Drive(s, steps[0].event, steps[0].answers);
      DriveKeeps(s, steps[0].event, steps[0].answers);
      TokensGrow(s, steps[0].event, steps[0].answers);
      TokensOnlyGrow(d.s, steps[1..]);
      NothingCutEarly(d.s, CutOffs(cut, s, steps[0].event, steps[0].answers), steps[1..]);
    }
  }

  lemma {:induction false} TokensOnlyGrow(s: State, steps: seq<Step>)
    requires Coherent(s)
    ensures Drives(s, steps).nextToken >= s.nextToken
    decreases |steps|
  {
    hide Coherent, Drive;
    if steps != [] {
      DriveKeeps(s, steps[0].event, steps[0].answers);
      TokensGrow(s, steps[0].event, steps[0].answers);
      TokensOnlyGrow(Drive(s, steps[0].event, steps[0].answers).s, steps[1..]);
    }
  }

  lemma TrulyEnded(s: State, id: u64, d: Driven)
    requires EndedTruly(s, id, d) && d.result.Ok? && d.result.value.kind.SessionTerminal?
    ensures d.s.phase.Leased? && id !in d.s.phase.lease.children && d.result.value.handoff == Truth(s, id)
  {
  }

  lemma CommitIsTheChilds(s: State, event: Event, answers: Answers)
    requires s.phase.Leased? && event.tag.FullWriteCommitted? && event.stream != s.phase.lease.leaseStream
    requires Drive(s, event, answers).result.Ok?
    ensures Drive(s, event, answers) == CommittedChild(s, event.stream, event.token)
  {
    hide CommittedChild;
  }

  // ---- The one end that does not tell -----------------------------------

  /** One envelope of one byte, and two of them. */
  const FRAME: seq<byte> := [0, 1, 9]
  const FRAMES: seq<byte> := [0, 1, 9, 0, 1, 9]

  lemma FramesScan()
    ensures Scan(FRAME) == Scanned([FRAME], [])
    ensures Scan(FRAMES) == Scanned([FRAME, FRAME], [])
  {
    assert FRAME == FRAME + [] && FRAMES == FRAME + FRAME;
    assert OneOuter(FRAME) == Ok([9]);
    ScanEnvelope(FRAME, []);
    ScanEnvelope(FRAME, FRAME);
    assert Scan([]) == Scanned([], []);
    assert [FRAME] + [] == [FRAME] && [FRAME] + [FRAME] == [FRAME, FRAME];
  }

  lemma FramesPush()
    ensures PushSpec(Live([]), FRAME).0 == Live([]) && PushSpec(Live([]), FRAME).1 == Ok([FRAME])
    ensures PushSpec(Live([]), FRAMES).0 == Live([]) && PushSpec(Live([]), FRAMES).1 == Ok([FRAME, FRAME])
    ensures FRAME != [] && FRAMES != []
  {
    hide Scan;
    FramesScan();
    assert [] + FRAME == FRAME && [] + FRAMES == FRAMES;
  }

  /** The cores answer with success, except that the response hits the record limit. */
  function LimitAnswers(): Answers {
    Answers(Ok([1]), Ok(Admission(1, 1, [1])), Ok([1]), Some([1]), Ok([1]), None, (k: nat) => Ok(Some([7])),
            Err(CoreError(RecordLimit, None, Some([1]))), None)
  }

  function On(tag: Tag, stream: u64, token: u64, bytes: seq<byte>): Step {
    Step(Event(tag, 0, stream, token, bytes), LimitAnswers())
  }

  /** The bootstrap on stream 1. */
  function Beginning(): seq<Step> {
    [On(BootstrapConnected, 1, 0, []), On(FullWriteCommitted, 1, 1, []), On(StreamBytes, 1, 0, FRAME),
     On(FullWriteCommitted, 1, 3, [])]
  }

  function LeaseBegun(): State {
    State(Leased(Eligible(1, 1, 1, Live([]), None, None, Some(4), 0, 0, map[])), 5, map[4 := LeaseTick])
  }

  lemma DrivesStep(s: State, log: map<u64, nat>, step: Step, rest: seq<Step>)
    ensures var d := Drive(s, step.event, step.answers);
            && Drives(s, [step] + rest) == Drives(d.s, rest)
            && LogAfter(s, log, [step] + rest) == LogAfter(d.s, Observed(log, step.event, d), rest)
  {
    assert ([step] + rest)[1..] == rest;
  }

  lemma BeginningRuns(rest: seq<Step>)
    ensures Drives(NewState(), Beginning() + rest) == Drives(LeaseBegun(), rest)
    ensures LogAfter(NewState(), map[], Beginning() + rest) == LogAfter(LeaseBegun(), map[], rest)
  {
    hide Drives, LogAfter, Scan;
    FramesPush();
    var b := Beginning();
    var s1 := State(BootstrapM1Pending(1, 1, Live([]), None), 3, map[2 := Bootstrap]);
    var s2 := s1.(phase := BootstrapM2(1, Live([]), None));
    var s3 := State(BootstrapAckPending(1, 3, Live([]), None, 1, 1), 4, map[2 := Bootstrap]);
    DrivesStep(NewState(), map[], b[0], b[1..] + rest);
    DrivesStep(s1, map[], b[1], b[2..] + rest);
    DrivesStep(s2, map[], b[2], b[3..] + rest);
    DrivesStep(s3, map[], b[3], rest);
    assert Drive(NewState(), b[0].event, b[0].answers).s == s1;
    assert Drive(s1, b[1].event, b[1].answers).s == s2;
    assert Drive(s2, b[2].event, b[2].answers).s == s3;
    assert Drive(s3, b[3].event, b[3].answers).s == LeaseBegun();
    assert Beginning() + rest == [b[0]] + (b[1..] + rest);
    assert b[1..] + rest == [b[1]] + (b[2..] + rest);
    assert b[2..] + rest == [b[2]] + (b[3..] + rest);
    assert b[3..] + rest == [b[3]] + rest;
  }

  function WithSession(next: u64, child: Child, timers: map<u64, TimerAction>): State {
    State(Leased(Eligible(1, 1, 1, Live([]), None, None, Some(4), 0, 0, map[2 := child])), next, timers[4 := LeaseTick])
  }

  /** The session waits for its last Close to be written. */
  function ClosePending(): State {
    WithSession(10, Child(TerminalPending(9, TerminalInfo(RecordLimit, HandoffPossibleOrConfirmed, None)),
                          Live([]), Some(8), None, 1), map[8 := SessionPhase(2)])
  }

  /** What the session's six steps lead through. */
  function Stage(k: nat): State
    requires k <= 6
  {
    var phase6, phase8 := map[6 := SessionPhase(2)], map[8 := SessionPhase(2)];
    if k == 0 then LeaseBegun()
    else if k == 1 then WithSession(7, Child(M1Pending(5), Live([]), Some(6), None, 0), phase6)
    else if k == 2 then WithSession(7, Child(AwaitM2, Live([]), Some(6), None, 0), phase6)
    else if k == 3 then WithSession(8, Child(FinishedPending(7), Live([]), Some(6), None, 0), phase6)
    else if k == 4 then WithSession(8, Child(AwaitFinished, Live([]), Some(6), None, 0), phase6)
    else if k == 5 then WithSession(9, Child(AwaitRuntime, Live([]), Some(8), None, 1), phase8)
    else ClosePending()
  }

  function SessionStep(k: nat): Step
    requires k < 6
  {
    if k == 0 then On(SessionAccepted, 2, 0, [])
    else if k == 1 then On(FullWriteCommitted, 2, 5, [])
    else if k == 2 then On(StreamBytes, 2, 0, FRAME)
    else if k == 3 then On(FullWriteCommitted, 2, 7, [])
    else if k == 4 then On(StreamBytes, 2, 0, FRAMES)
    else On(RuntimeResponse, 2, 0, [1])
  }

  function SessionFrom(k: nat): seq<Step>
    requires k <= 6
    decreases 6 - k
  {
    if k == 6 then [] else [SessionStep(k)] + SessionFrom(k + 1)
  }

  /** From one stage to the next; only the fifth step hands an application out. */
  predicate Advances(k: nat)
    requires k < 6
  {
    var step := SessionStep(k);
    var d := Drive(Stage(k), step.event, step.answers);
    && d.s == Stage(k + 1)
    && d.result.Ok?
    && (d.result.value.kind.Application? <==> k == 4)
    && (k == 4 ==> d.result.value.stream == 2)
    && (k == 0 ==> d.result.value.kind.WriteFrames?)
  }

  function After(k: nat): State
    requires k < 6
  {
    Drive(Stage(k), SessionStep(k).event, SessionStep(k).answers).s
  }

  /** Same children and same timers. */
  predicate Lands(k: nat)
    requires k < 6
  {
    && After(k).phase.Leased?
    && After(k).phase.lease.children == Stage(k + 1).phase.lease.children
    && After(k).timers == Stage(k + 1).timers
  }

  lemma OpeningAdvances()
    ensures Advances(0) && Advances(1)
  {
    assert Lands(0);
    assert Lands(1);
  }

  lemma HelloAdvances()
    ensures Advances(2)
  {
    hide Scan, FRAME;
    FramesPush();
    assert Lands(2);
  }

  lemma FinishedAdvances()
    ensures Advances(3)
  {
    assert Lands(3);
  }

  lemma BatchOfOne()
    ensures ReadBatch(LimitAnswers(), 1, 2, None) == One([7])
  {
  }

  function Parked(): State {
    WithSession(8, Child(Gone, Live([]), Some(6), None, 0), map[6 := SessionPhase(2)])
  }

  lemma ApplicationTaken()
    ensures var d := TakeBatch(Parked(), 2, One([7]), None);
            d.s == Stage(5) && d.result.Ok? && d.result.value.kind.Application? && d.result.value.stream == 2
  {
    var d := TakeBatch(Parked(), 2, One([7]), None);
    assert d.s.phase.lease.children == Stage(5).phase.lease.children;
    assert d.s.timers == Stage(5).timers;
  }

  lemma ApplicationAdvances()
    ensures Advances(4)
  {
    hide Scan, FRAME, FRAMES, LeaseBytes, ChildError, ReadHello, EndChild, ReadBatch, TakeBatch;
    FramesPush();
    BatchOfOne();
    ApplicationTaken();
    var c := Stage(4).phase.lease.children[2];
    assert SetChild(SetChild(Stage(4), 2, c), 2, c.(phase := Gone)).phase.lease.children ==
        Parked().phase.lease.children;
    assert SetChild(SetChild(Stage(4), 2, c), 2, c.(phase := Gone)) == Parked();
  }

  lemma LimitAdvances()
    ensures Advances(5)
  {
    assert Lands(5);
  }

  lemma {:induction false} SessionRuns(k: nat, log: map<u64, nat>)
    requires k <= 6
    requires k > 0 ==> 2 in log && log[2] == if k > 4 then 1 else 0
    ensures Drives(Stage(k), SessionFrom(k)) == ClosePending()
    ensures var after := LogAfter(Stage(k), log, SessionFrom(k)); 2 in after && after[2] == 1
    decreases 6 - k
  {
    hide Drive, FRAME, FRAMES;
    if k < 6 {
      OpeningAdvances();
      HelloAdvances();
      FinishedAdvances();
      ApplicationAdvances();
      LimitAdvances();
      var step := SessionStep(k);
      var d := Drive(Stage(k), step.event, step.answers);
      DrivesStep(Stage(k), log, step, SessionFrom(k + 1));
      SessionRuns(k + 1, Observed(log, step.event, d));
    }
  }

  /** A session on stream 2, with one application and a response that hits a
      limit: a reachable run whose last session end denies a hand-off that happened,
      and leaves the session behind to end once more when its timer fires. */
  lemma OneEndDeniesHandoff()
    ensures var steps := Beginning() + SessionFrom(0);
            var s, log := Drives(NewState(), steps), LogAfter(NewState(), map[], steps);
            var commit := On(FullWriteCommitted, 2, 9, []);
            var d := Drive(s, commit.event, commit.answers);
            && 2 in log && log[2] == 1
            && d.result == Ok(EndOutcome(SessionTerminal, 2, TerminalInfo(RecordLimit, NotHandedOff, None)))
            && var again := Drive(d.s, Fire(8), commit.answers);
               again.result == Ok(EndOutcome(SessionTerminal, 2,
                                             TerminalInfo(Timeout, HandoffPossibleOrConfirmed, None)))
  {
    hide Drives, LogAfter;
    BeginningRuns(SessionFrom(0));
    SessionRuns(0, map[]);
  }
}
