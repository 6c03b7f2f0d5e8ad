/** The supervisor as the mutable object it is.  Each handler is proved to leave
    the state and return the outcome of the function of the same step. */
module SupervisorObject {
  import opened Common
  import opened Terms
  import opened Framing
  import S = Supervisor

  class TargetTransport {
    var phase: S.Phase
    var nextToken: u64
    var timers: map<u64, S.TimerAction>

    ghost function View(): S.State
      reads this
    {
      S.State(phase, nextToken, timers)
    }

    constructor ()
      ensures View() == S.NewState()
    {
      phase, nextToken, timers := S.AwaitBootstrap, 1, map[];
    }

    // ---- Tokens and timers ---------------------------------------------

    method AllocateToken() returns (token: Option<u64>)
      modifies this`nextToken
      ensures S.Alloc(View(), token) == S.Allocate(old(View()))
    {
      if nextToken == U64_MAX {
        return None;
      }
      token := if nextToken == 0 then None else Some(nextToken);
      nextToken := nextToken + 1;
    }

    method ScheduleTimer(action: S.TimerAction) returns (token: Option<u64>)
      modifies this`nextToken, this`timers
      ensures S.Alloc(View(), token) == S.Schedule(old(View()), action)
    {
      token := AllocateToken();
      if token.Some? {
        timers := timers[token.value := action];
      }
    }

    method RemoveTimer(slot: Option<u64>)
      modifies this`timers
      ensures View() == S.Cancel(old(View()), slot)
    {
      if slot.Some? {
        timers := timers - {slot.value};
      }
    }

    method UpdateFrameTimer(incomplete: bool, slot: Option<u64>, action: S.TimerAction)
      returns (newSlot: Option<u64>, started: Option<u64>, failed: bool)
      modifies this`nextToken, this`timers
      ensures S.FrameTimer(View(), newSlot, started, failed) ==
              S.UpdateFrameTimer(old(View()), incomplete, slot, action)
    {
      newSlot, started, failed := slot, None, false;
      if incomplete {
        if slot.None? {
          started := ScheduleTimer(action);
          newSlot, failed := started, started.None?;
        }
      } else {
        RemoveTimer(slot);
        newSlot := None;
      }
    }

    // ---- Ending --------------------------------------------------------

    method EndLease(reason: CloseReason, peer: Option<S.PeerClose>)
      returns (r: Result<S.Outcome, S.SupervisorError>)
      modifies this
      ensures S.Driven(View(), r) == S.EndLease(old(View()), reason, peer)
    {
      var info := S.TerminalInfo(reason, S.LeaseHandoff(phase), peer);
      timers := map[];
      phase := S.Terminated(info);
      r := Ok(S.EndOutcome(S.LeaseTerminal, 0, info));
    }

    method EndChild(stream: u64, reason: CloseReason, peer: Option<S.PeerClose>)
      returns (r: Result<S.Outcome, S.SupervisorError>)
      modifies this
      ensures S.Driven(View(), r) == S.EndChild(old(View()), stream, reason, peer)
    {
      var handoff := NotHandedOff;
      if phase.Leased? && stream in phase.lease.children {
        var child := phase.lease.children[stream];
        phase := S.Leased(phase.lease.(children := phase.lease.children - {stream}));
        if child.applications > 0 {
          handoff := HandoffPossibleOrConfirmed;
        }
        RemoveTimer(child.phaseTimer);
        RemoveTimer(child.frameTimer);
      }
      r := Ok(S.EndOutcome(S.SessionTerminal, stream, S.TerminalInfo(reason, handoff, peer)));
    }

    method SetChild(stream: u64, child: S.Child)
      requires phase.Leased?
      modifies this`phase
      ensures View() == S.SetChild(old(View()), stream, child)
    {
      phase := S.Leased(phase.lease.(children := phase.lease.children[stream := child]));
    }

    method ChildCoreError(stream: u64, error: S.CoreError) returns (r: Result<S.Outcome, S.SupervisorError>)
      requires phase.Leased? && stream in phase.lease.children
      modifies this
      ensures S.Driven(View(), r) == S.ChildError(old(View()), stream, error)
    {
      if error.closeFrame.Some? {
        var child := phase.lease.children[stream];
        var handoff := if child.applications > 0 then HandoffPossibleOrConfirmed else NotHandedOff;
        var token := AllocateToken();
        if token.None? {
          r := EndChild(stream, InternalError, None);
          return;
        }
        var info := S.TerminalInfo(error.reason, handoff, error.peerClose);
        SetChild(stream, child.(phase := S.TerminalPending(token.value, info)));
        return Ok(S.Write(stream, token.value, error.closeFrame.value).(
                    flags := 8, reason := error.reason, handoff := handoff, peerClose := error.peerClose));
      }
      r := EndChild(stream, error.reason, error.peerClose);
    }

    // ---- Bootstrap -----------------------------------------------------

    method BootstrapConnected(event: S.Event, answers: S.Answers) returns (r: Result<S.Outcome, S.SupervisorError>)
      modifies this
      ensures S.Driven(View(), r) == S.Connected(old(View()), event, answers)
    {
      if event.stream == 0 || event.token != 0 || event.bytes != [] {
        return Err(S.InvalidArgument);
      }
      var was := phase;
      phase := S.Terminated(S.InternalTerminal());
      if !was.AwaitBootstrap? {
        phase := was;
        return Err(S.WrongPhase);
      }
      if answers.bootstrapM1.Err? {
        r := EndLease(answers.bootstrapM1.error.reason, answers.bootstrapM1.error.peerClose);
        return;
      }
      var token := AllocateToken();
      if token.None? {
        return Err(S.Internal);
      }
      var timer := ScheduleTimer(S.Bootstrap);
      if timer.None? {
        return Err(S.Internal);
      }
      phase := S.BootstrapM1Pending(event.stream, token.value, Live([]), None);
      r := Ok(S.WithDeadline(S.Write(event.stream, token.value, answers.bootstrapM1.value),
                             timer.value, S.BOOTSTRAP_DEADLINE_MS));
    }

    method BootstrapBytes(event: S.Event, answers: S.Answers) returns (r: Result<S.Outcome, S.SupervisorError>)
      requires phase.BootstrapM2?
      modifies this
      ensures S.Driven(View(), r) == S.BootstrapBytes(old(View()), event, answers)
    {
      hide Scan;
      var was := phase;
      phase := S.Terminated(S.InternalTerminal());
      var (decoder, pushed) := PushSpec(was.decoder, event.bytes);
      if pushed.Err? {
        r := EndLease(pushed.error, None);
        return;
      }
      var slot, started, failed := UpdateFrameTimer(S.Incomplete(decoder), was.frameTimer, S.BootstrapFrame);
      if failed {
        return Err(S.Internal);
      }
      if pushed.value == [] {
        phase := S.BootstrapM2(was.stream, decoder, slot);
        return Ok(S.FrameDeadline(S.Plain(S.NeedInput, was.stream), started));
      }
      if |pushed.value| != 1 {
        r := EndLease(SequenceViolation, None);
        return;
      }
      if answers.bootstrapM2.Err? {
        r := EndLease(answers.bootstrapM2.error.reason, answers.bootstrapM2.error.peerClose);
        return;
      }
      var admission := answers.bootstrapM2.value;
      var token := AllocateToken();
      if token.None? {
        return Err(S.Internal);
      }
      phase := S.BootstrapAckPending(was.stream, token.value, decoder, slot, admission.generation, admission.epoch);
      r := Ok(S.FrameDeadline(S.Write(was.stream, token.value, admission.ack), started));
    }

    // ---- Writes committed ----------------------------------------------

    method FullWriteCommitted(event: S.Event) returns (r: Result<S.Outcome, S.SupervisorError>)
      modifies this
      ensures S.Driven(View(), r) == S.Committed(old(View()), event)
    {
      hide S.CommittedChild;
      if event.stream == 0 || event.token == 0 || event.bytes != [] {
        return Err(S.InvalidArgument);
      }
      var was := phase;
      phase := S.Terminated(S.InternalTerminal());
      if was.BootstrapM1Pending? && was.stream == event.stream && was.token == event.token {
        phase := S.BootstrapM2(was.stream, was.decoder, was.frameTimer);
        return Ok(S.Plain(S.NeedInput, was.stream));
      }
      if was.BootstrapAckPending? && was.stream == event.stream && was.token == event.token {
        timers := map t | t in timers && !timers[t].Bootstrap? :: timers[t];
        var tick := ScheduleTimer(S.LeaseTick);
        if tick.None? {
          return Err(S.Internal);
        }
        phase := S.Leased(S.Eligible(was.stream, was.generation, was.epoch, was.decoder, None, was.frameTimer,
                                     tick, 0, 0, map[]));
        return Ok(S.WithDeadline(S.Plain(S.LeaseReady, was.stream).(value0 := was.generation, value1 := was.epoch),
                                 tick.value, S.LEASE_TICK_MS));
      }
      if was.Leased? {
        if was.lease.leaseStream == event.stream {
          if was.lease.leaseWrite == Some(event.token) {
            phase := S.Leased(was.lease.(leaseWrite := None));
            return Ok(S.Plain(S.NeedInput, event.stream));
          }
          phase := was;
          return Err(S.WrongPhase);
        }
        r := CommitChildWrite(was.lease, event.stream, event.token);
        return;
      }
      phase := was;
      r := Err(S.WrongPhase);
    }

    /** Called while the phase is parked on the placeholder; puts the lease back
        at the end.  Ending the child in between finds no lease to remove it from. */
    method CommitChildWrite(lease: S.Eligible, stream: u64, token: u64)
      returns (r: Result<S.Outcome, S.SupervisorError>)
      requires phase == S.Terminated(S.InternalTerminal())
      modifies this
      ensures S.Driven(View(), r) == S.CommittedChild(old(View()).(phase := S.Leased(lease)), stream, token)
    {
      if stream !in lease.children {
        phase := S.Leased(lease);
        return Err(S.WrongPhase);
      }
      var child := lease.children[stream];
      match child.phase {
        case M1Pending(expected) =>
          if expected == token {
            phase := S.Leased(lease.(children := lease.children[stream := child.(phase := S.AwaitM2)]));
            return Ok(S.Plain(S.NeedInput, stream));
          }
        case FinishedPending(expected) =>
          if expected == token {
            phase := S.Leased(lease.(children := lease.children[stream := child.(phase := S.AwaitFinished)]));
            return Ok(S.Plain(S.NeedInput, stream));
          }
        case ResponsePending(expected) =>
          if expected == token {
            phase := S.Leased(lease.(children := lease.children[stream := child.(phase := S.AwaitApplication)]));
            var timer := ReplaceChildTimer(stream, S.SessionIdle(stream));
            if timer.None? {
              return Err(S.Internal);
            }
            return Ok(S.WithDeadline(S.Plain(S.NeedInput, stream), timer.value, S.SESSION_IDLE_DEADLINE_MS));
          }
        case TerminalPending(expected, terminal) =>
          if expected == token {
            r := EndChild(stream, terminal.reason, terminal.peerClose);
            phase := S.Leased(lease.(children := lease.children[stream := child.(phase := S.Gone)]));
            return;
          }
        case _ =>
      }
      phase := S.Leased(lease);
      r := Err(S.WrongPhase);
    }

    method ReplaceChildTimer(stream: u64, action: S.TimerAction) returns (timer: Option<u64>)
      requires phase.Leased? && stream in phase.lease.children
      modifies this
      ensures S.Alloc(View(), timer) == S.ReplacePhaseTimer(old(View()), stream, action)
    {
      var child := phase.lease.children[stream];
      RemoveTimer(child.phaseTimer);
      SetChild(stream, child.(phaseTimer := None));
      timer := ScheduleTimer(action);
      if timer.Some? {
        SetChild(stream, child.(phaseTimer := timer));
      }
    }

    // ---- Sessions ------------------------------------------------------

    method SessionAccepted(event: S.Event, answers: S.Answers) returns (r: Result<S.Outcome, S.SupervisorError>)
      modifies this
      ensures S.Driven(View(), r) == S.Accepted(old(View()), event, answers)
    {
      if event.stream == 0 || event.token != 0 || event.bytes != [] {
        return Err(S.InvalidArgument);
      }
      if !phase.Leased? || event.stream == phase.lease.leaseStream || event.stream in phase.lease.children {
        return Err(S.WrongPhase);
      }
      if answers.helloM1.None? {
        return Err(S.Internal);
      }
      var token := AllocateToken();
      if token.None? {
        return Err(S.Internal);
      }
      var timer := ScheduleTimer(S.SessionPhase(event.stream));
      if timer.None? {
        return Err(S.Internal);
      }
      SetChild(event.stream, S.Child(S.M1Pending(token.value), Live([]), timer, None, 0));
      r := Ok(S.WithDeadline(S.Write(event.stream, token.value, answers.helloM1.value), timer.value,
                             S.SESSION_HANDSHAKE_DEADLINE_MS));
    }

    method RuntimeResponse(event: S.Event, answers: S.Answers) returns (r: Result<S.Outcome, S.SupervisorError>)
      modifies this
      ensures S.Driven(View(), r) == S.Responded(old(View()), event, answers)
    {
      hide S.ChildError;
      if event.stream == 0 || event.token != 0 || event.bytes == [] {
        return Err(S.InvalidArgument);
      }
      if !phase.Leased? || event.stream !in phase.lease.children {
        return Err(S.WrongPhase);
      }
      var child := phase.lease.children[event.stream];
      if !child.phase.AwaitRuntime? {
        return Err(S.WrongPhase);
      }
      SetChild(event.stream, child.(phase := S.Gone));
      if answers.response.Err? {
        r := ChildCoreError(event.stream, answers.response.error);
        return;
      }
      var token := AllocateToken();
      if token.None? {
        return Err(S.Internal);
      }
      SetTwice(phase.lease.children, old(phase).lease.children, event.stream, child.(phase := S.Gone),
               child.(phase := S.ResponsePending(token.value)));
      SetChild(event.stream, child.(phase := S.ResponsePending(token.value)));
      r := Ok(S.Write(event.stream, token.value, Concat(answers.response.value)));
    }

    method StreamBytes(event: S.Event, answers: S.Answers) returns (r: Result<S.Outcome, S.SupervisorError>)
      modifies this
      ensures S.Driven(View(), r) == S.Bytes(old(View()), event, answers)
    {
      hide S.BootstrapBytes, S.LeaseBytes, S.SessionBytes;
      if event.stream == 0 || event.token != 0 || event.bytes == [] {
        return Err(S.InvalidArgument);
      }
      if phase.BootstrapM2? && phase.stream == event.stream {
        r := BootstrapBytes(event, answers);
      } else if phase.Leased? && phase.lease.leaseStream == event.stream {
        r := LeaseBytes(event, answers);
      } else if phase.Leased? && event.stream in phase.lease.children {
        r := SessionBytes(event, answers);
      } else {
        r := Err(S.WrongPhase);
      }
    }

    method LeaseBytes(event: S.Event, answers: S.Answers) returns (r: Result<S.Outcome, S.SupervisorError>)
      requires phase.Leased?
      modifies this
      ensures S.Driven(View(), r) == S.LeaseBytes(old(View()), event, answers)
    {
      hide Scan, S.UpdateFrameTimer, S.LeaseHandoff;
      if phase.lease.leaseWrite.Some? {
        return Err(S.WrongPhase);
      }
      var (decoder, pushed) := PushSpec(phase.lease.leaseDecoder, event.bytes);
      if pushed.Err? {
        r := EndLease(pushed.error, None);
        return;
      }
      var slot, started, failed :=
        UpdateFrameTimer(S.Incomplete(decoder), phase.lease.leaseFrameTimer, S.LeaseFrame);
      phase := S.Leased(phase.lease.(leaseDecoder := decoder, leaseFrameTimer := slot));
      if failed {
        return Err(S.Internal);
      }
      if pushed.value == [] {
        return Ok(S.FrameDeadline(S.Plain(S.NeedInput, event.stream), started));
      }
      if |pushed.value| != 1 {
        r := EndLease(SequenceViolation, None);
        return;
      }
      if answers.heartbeat.Err? {
        r := EndLease(answers.heartbeat.error.reason, answers.heartbeat.error.peerClose);
        return;
      }
      phase := S.Leased(phase.lease.(missedTicks := 0));
      var token := AllocateToken();
      if token.None? {
        return Err(S.Internal);
      }
      phase := S.Leased(phase.lease.(leaseWrite := token));
      r := Ok(S.FrameDeadline(S.Write(event.stream, token.value, answers.heartbeat.value), started));
    }

    /** Reads application frames `from` to `n` until one fails or a second
        application appears. */
    method ReadBatch(answers: S.Answers, from: nat, n: nat) returns (batch: S.Batch)
      requires from <= n
      ensures batch == S.ReadBatch(answers, from, n, None)
    {
      var application: Option<seq<byte>> := None;
      for k := from to n
        invariant S.ReadBatch(answers, from, n, None) == S.ReadBatch(answers, k, n, application)
      {
        var read := answers.application(k);
        if read.Err? {
          return S.Failing(read.error);
        }
        if read.value.Some? {
          if application.Some? {
            return S.Two;
          }
          application := read.value;
        }
      }
      batch := if application.Some? then S.One(application.value) else S.Quiet;
    }

    method SessionBytes(event: S.Event, answers: S.Answers) returns (r: Result<S.Outcome, S.SupervisorError>)
      requires phase.Leased? && event.stream in phase.lease.children
      modifies this
      ensures S.Driven(View(), r) == S.SessionBytes(old(View()), event, answers)
    {
      hide Scan, S.UpdateFrameTimer, S.ChildError, S.TakeBatch, S.ReadHello, S.ReadBatch;
      var stream := event.stream;
      var child := phase.lease.children[stream];
      var (decoder, pushed) := PushSpec(child.decoder, event.bytes);
      if pushed.Err? {
        SetChild(stream, child.(decoder := decoder));
        r := ChildCoreError(stream, S.CoreError(pushed.error, None, None));
        return;
      }
      var slot, started, failed :=
        UpdateFrameTimer(S.Incomplete(decoder), child.frameTimer, S.SessionFrame(stream));
      child := child.(decoder := decoder, frameTimer := slot);
      SetChild(stream, child);
      if failed {
        return Err(S.Internal);
      }
      if pushed.value == [] {
        return Ok(S.FrameDeadline(S.Plain(S.NeedInput, stream), started));
      }
      ghost var before := phase.lease.children;
      SetChild(stream, child.(phase := S.Gone));
      match child.phase {
        case AwaitM2 => r := ReadHello(stream, |pushed.value|, answers, started);
        case AwaitFinished =>
          if answers.finished.Some? {
            r := ChildCoreError(stream, answers.finished.value);
          } else {
            var batch := ReadBatch(answers, 1, |pushed.value|);
            r := TakeBatch(stream, batch, started);
          }
        case AwaitApplication =>
          var batch := ReadBatch(answers, 0, |pushed.value|);
          r := TakeBatch(stream, batch, started);
        case _ =>
          SetTwice(phase.lease.children, before, stream, child.(phase := S.Gone), child);
          SetChild(stream, child);
          r := Err(S.WrongPhase);
      }
    }

    method ReadHello(stream: u64, frames: nat, answers: S.Answers, started: Option<u64>)
      returns (r: Result<S.Outcome, S.SupervisorError>)
      requires phase.Leased? && stream in phase.lease.children
      modifies this
      ensures S.Driven(View(), r) == S.ReadHello(old(View()), stream, frames, answers, started)
    {
      hide S.ChildError, S.EndChild;
      if frames != 1 {
        r := EndChild(stream, SequenceViolation, None);
        return;
      }
      if answers.helloM2.Err? {
        r := ChildCoreError(stream, answers.helloM2.error);
        return;
      }
      var token := AllocateToken();
      if token.None? {
        return Err(S.Internal);
      }
      SetChild(stream, phase.lease.children[stream].(phase := S.FinishedPending(token.value)));
      r := Ok(S.FrameDeadline(S.Write(stream, token.value, answers.helloM2.value), started));
    }

    method TakeBatch(stream: u64, batch: S.Batch, started: Option<u64>)
      returns (r: Result<S.Outcome, S.SupervisorError>)
      requires phase.Leased? && stream in phase.lease.children
      modifies this
      ensures S.Driven(View(), r) == S.TakeBatch(old(View()), stream, batch, started)
    {
      hide S.ChildError, S.EndChild, S.ReplacePhaseTimer;
      var child := phase.lease.children[stream];
      match batch {
        case Failing(error) => r := ChildCoreError(stream, error);
        case Two => r := EndChild(stream, SequenceViolation, None);
        case Quiet =>
          SetChild(stream, child.(phase := S.AwaitApplication));
          r := Ok(S.FrameDeadline(S.Plain(S.NeedInput, stream), started));
        case One(bytes) =>
          if child.applications == U64_MAX {
            return Err(S.Internal);
          }
          child := child.(phase := S.AwaitRuntime, applications := child.applications + 1);
          SetChild(stream, child);
          if started.Some? {
            RemoveTimer(child.phaseTimer);
            SetChild(stream, child.(phaseTimer := None));
            return Ok(S.FrameDeadline(S.Delivery(stream, bytes), started));
          }
          var timer := ReplaceChildTimer(stream, S.SessionPhase(stream));
          if timer.None? {
            return Err(S.Internal);
          }
          var deadline := if child.applications == 1 then S.SESSION_OPEN_RESPONSE_DEADLINE_MS
                          else S.SESSION_IDLE_DEADLINE_MS;
          r := Ok(S.WithDeadline(S.Delivery(stream, bytes), timer.value, deadline));
      }
    }

    // ---- Streams ending and timers -------------------------------------

    method StreamClosed(event: S.Event, answers: S.Answers) returns (r: Result<S.Outcome, S.SupervisorError>)
      modifies this
      ensures S.Driven(View(), r) == S.ClosedStream(old(View()), event, answers)
    {
      hide S.ChildError, S.EndChild, S.LeaseHandoff, S.ChildEnd;
      if event.stream == 0 || event.token != 0 || event.bytes != [] {
        return Err(S.InvalidArgument);
      }
      var reason := if event.tag.StreamCloseNormal? then Normal else PeerClosed;
      var orderly := !event.tag.StreamIoFailed?;
      if phase.BootstrapM1Pending? || phase.BootstrapM2? || phase.BootstrapAckPending? {
        if phase.stream != event.stream {
          return Err(S.WrongPhase);
        }
        var end := EndSpec(phase.decoder, Malformed).1;
        if orderly && end.Err? {
          r := EndLease(end.error, None);
        } else {
          r := EndLease(reason, None);
        }
      } else if !phase.Leased? {
        r := Err(S.WrongPhase);
      } else if phase.lease.leaseStream == event.stream {
        var end := EndSpec(phase.lease.leaseDecoder, Malformed).1;
        if orderly && end.Err? {
          r := EndLease(end.error, None);
        } else {
          r := EndLease(BrokerLost, None);
        }
      } else if event.stream !in phase.lease.children {
        r := Err(S.WrongPhase);
      } else {
        var error := S.ChildEnd(phase.lease.children[event.stream], answers);
        if orderly && error.Some? {
          r := ChildCoreError(event.stream, error.value);
        } else {
          r := EndChild(event.stream, reason, None);
        }
      }
    }

    method TimerFired(event: S.Event) returns (r: Result<S.Outcome, S.SupervisorError>)
      modifies this
      ensures S.Driven(View(), r) == S.Fired(old(View()), event)
    {
      hide S.EndChild, S.LeaseHandoff;
      if event.stream != 0 || event.token == 0 || event.bytes != [] {
        return Err(S.InvalidArgument);
      }
      if event.token !in timers {
        return Ok(S.Plain(S.NeedInput, 0));
      }
      var action := timers[event.token];
      timers := timers - {event.token};
      match action {
        case Bootstrap => r := EndLease(Timeout, None);
        case BootstrapFrame => r := EndLease(Timeout, None);
        case LeaseFrame => r := EndLease(Timeout, None);
        case LeaseTick => r := Tick(event.token);
        case SessionPhase(stream) => r := EndIfPresent(stream, Timeout);
        case SessionFrame(stream) => r := EndIfPresent(stream, Timeout);
        case SessionIdle(stream) => r := EndIfPresent(stream, Stale);
      }
    }

    method EndIfPresent(stream: u64, reason: CloseReason) returns (r: Result<S.Outcome, S.SupervisorError>)
      modifies this
      ensures S.Driven(View(), r) == S.FiredChild(old(View()), stream, reason)
    {
      hide S.EndChild;
      if phase.Leased? && stream in phase.lease.children {
        r := EndChild(stream, reason, None);
      } else {
        r := Ok(S.Plain(S.NeedInput, 0));
      }
    }

    method Tick(token: u64) returns (r: Result<S.Outcome, S.SupervisorError>)
      modifies this
      ensures S.Driven(View(), r) == S.Ticked(old(View()), token)
    {
      hide S.LeaseHandoff;
      if !phase.Leased? || phase.lease.leaseTickTimer != Some(token) {
        return Ok(S.Plain(S.NeedInput, 0));
      }
      phase := S.Leased(phase.lease.(leaseTicks := S.Saturated(phase.lease.leaseTicks),
                                     missedTicks := S.Saturated(phase.lease.missedTicks)));
      if phase.lease.leaseTicks >= S.LEASE_TICKS {
        r := EndLease(Stale, None);
        return;
      }
      if phase.lease.missedTicks >= S.MISSED_TICKS {
        r := EndLease(BrokerLost, None);
        return;
      }
      var timer := ScheduleTimer(S.LeaseTick);
      if timer.None? {
        return Err(S.Internal);
      }
      phase := S.Leased(phase.lease.(leaseTickTimer := timer));
      r := Ok(S.WithDeadline(S.Plain(S.NeedInput, 0), timer.value, S.LEASE_TICK_MS));
    }

    // ---- The public calls ----------------------------------------------

    method Drive(event: S.Event, answers: S.Answers) returns (r: Result<S.Outcome, S.SupervisorError>)
      modifies this
      ensures S.Driven(View(), r) == S.Drive(old(View()), event, answers)
    {
      hide S.Fired, S.Connected, S.Committed, S.Accepted, S.Responded, S.Bytes, S.ClosedStream, S.LeaseHandoff;
      if phase.Terminated? {
        return Ok(S.EndOutcome(S.LeaseTerminal, 0, phase.terminal));
      }
      if event.flags != 0 {
        return Err(S.InvalidArgument);
      }
      match event.tag {
        case LostEligibility =>
          if !S.Bare(event) {
            return Err(S.InvalidArgument);
          }
          if phase.Leased? && phase.lease.epoch as int + 1 > S.EPOCH_MAX {
            r := EndLease(InternalError, None);
          } else {
            r := EndLease(EligibilityLost, None);
          }
        case FailedCleanup =>
          if !S.Bare(event) {
            return Err(S.InvalidArgument);
          }
          r := EndLease(CleanupFailed, None);
        case HitInternalError =>
          if !S.Bare(event) {
            return Err(S.InvalidArgument);
          }
          r := EndLease(InternalError, None);
        case TimerFired => r := TimerFired(event);
        case BootstrapConnected => r := BootstrapConnected(event, answers);
        case FullWriteCommitted => r := FullWriteCommitted(event);
        case SessionAccepted => r := SessionAccepted(event, answers);
        case RuntimeResponse => r := RuntimeResponse(event, answers);
        case StreamBytes => r := StreamBytes(event, answers);
        case _ => r := StreamClosed(event, answers);
      }
    }

    method Close() returns (o: S.Outcome)
      modifies this
      ensures View() == S.Shut(old(View()))
      ensures o == S.Plain(S.Closed, 0)
    {
      timers := map[];
      phase := S.Terminated(S.TerminalInfo(Normal, NotHandedOff, None));
      o := S.Plain(S.Closed, 0);
    }

    /** The live tokens whose firing would end something. */
    method TerminalTimerTokens() returns (tokens: set<u64>)
      ensures tokens == S.TerminalTimerTokens(View())
    {
      tokens := set t | t in timers &&
        (timers[t].LeaseTick? ==>
           && phase.Leased? && phase.lease.leaseTickTimer == Some(t)
           && (S.Saturated(phase.lease.leaseTicks) >= S.LEASE_TICKS
               || S.Saturated(phase.lease.missedTicks) >= S.MISSED_TICKS));
    }
  }

  lemma SetTwice(now: map<u64, S.Child>, was: map<u64, S.Child>, stream: u64, between: S.Child, child: S.Child)
    requires now == was[stream := between]
    ensures now[stream := child] == was[stream := child]
  {
  }
}
