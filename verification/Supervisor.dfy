/** The Target's transport supervisor: bootstrap, lease and many child sessions
    driven by one event at a time, with one token counter for writes and timers.
    What the Noise cores answer during a call is a parameter of that call. */
module Supervisor {
  import opened Common
  import opened Terms
  import opened Framing

  const BOOTSTRAP_DEADLINE_MS: u64 := 10_000
  const SESSION_HANDSHAKE_DEADLINE_MS: u64 := 1_000
  const SESSION_OPEN_RESPONSE_DEADLINE_MS: u64 := 2_000
  const FRAME_DEADLINE_MS: u64 := 2_000
  const SESSION_IDLE_DEADLINE_MS: u64 := 30_000
  const LEASE_TICK_MS: u64 := 30_000
  const EPOCH_MAX: u64 := 9_007_199_254_740_991
  const LEASE_TICKS := 30
  const MISSED_TICKS := 4

  datatype Tag =
    | BootstrapConnected | StreamBytes | FullWriteCommitted | SessionAccepted | RuntimeResponse
    | StreamEof | StreamIoFailed | StreamCloseNormal | TimerFired | LostEligibility | FailedCleanup | HitInternalError

  datatype Event = Event(tag: Tag, flags: u32, stream: u64, token: u64, bytes: seq<byte>)

  datatype Kind =
    | EndpointReady | WriteFrames | Application | LeaseReady | NeedInput | SessionTerminal | LeaseTerminal | Closed

  datatype PeerClose = PeerClose(reason: CloseReason, handoff: Handoff)

  datatype Outcome = Outcome(
    kind: Kind,
    flags: u32,
    stream: u64,
    token: u64,
    bytes: Option<seq<byte>>,
    value0: u64,
    value1: u64,
    deadlineMs: u64,
    reason: CloseReason,
    handoff: Handoff,
    peerClose: Option<PeerClose>)

  datatype SupervisorError = InvalidArgument | WrongPhase | Internal

  /** An error of a Noise core, with the Close frame a limit error may carry. */
  datatype CoreError = CoreError(reason: CloseReason, peerClose: Option<PeerClose>, closeFrame: Option<seq<byte>>)

  datatype Admission = Admission(generation: u64, epoch: u64, ack: seq<byte>)

  /** What the cores answer if they are asked during one call. */
  datatype Answers = Answers(
    bootstrapM1: Result<seq<byte>, CoreError>,
    bootstrapM2: Result<Admission, CoreError>,
    heartbeat: Result<seq<byte>, CoreError>,
    helloM1: Option<seq<byte>>,
    helloM2: Result<seq<byte>, CoreError>,
    finished: Option<CoreError>,
    application: nat -> Result<Option<seq<byte>>, CoreError>,
    response: Result<seq<seq<byte>>, CoreError>,
    endOfSession: Option<CoreError>)

  datatype TerminalInfo = TerminalInfo(reason: CloseReason, handoff: Handoff, peerClose: Option<PeerClose>)

  function InternalTerminal(): TerminalInfo {
    TerminalInfo(InternalError, NotHandedOff, None)
  }

  datatype ChildPhase =
    | M1Pending(token: u64)
    | AwaitM2
    | FinishedPending(token: u64)
    | AwaitFinished
    | AwaitApplication
    | AwaitRuntime
    | ResponsePending(token: u64)
    | TerminalPending(token: u64, terminal: TerminalInfo)
    | Gone

  datatype Child = Child(
    phase: ChildPhase, decoder: DecoderState, phaseTimer: Option<u64>, frameTimer: Option<u64>, applications: u64)

  datatype Eligible = Eligible(
    leaseStream: u64,
    generation: u64,
    epoch: u64,
    leaseDecoder: DecoderState,
    leaseWrite: Option<u64>,
    leaseFrameTimer: Option<u64>,
    leaseTickTimer: Option<u64>,
    leaseTicks: byte,
    missedTicks: byte,
    children: map<u64, Child>)

  datatype Phase =
    | AwaitBootstrap
    | BootstrapM1Pending(stream: u64, token: u64, decoder: DecoderState, frameTimer: Option<u64>)
    | BootstrapM2(stream: u64, decoder: DecoderState, frameTimer: Option<u64>)
    | BootstrapAckPending(stream: u64, token: u64, decoder: DecoderState, frameTimer: Option<u64>,
                          generation: u64, epoch: u64)
    | Leased(lease: Eligible)
    | Terminated(terminal: TerminalInfo)

  datatype TimerAction =
    | Bootstrap | BootstrapFrame | LeaseTick | LeaseFrame
    | SessionPhase(stream: u64) | SessionIdle(stream: u64) | SessionFrame(stream: u64)

  datatype State = State(phase: Phase, nextToken: u64, timers: map<u64, TimerAction>)

  datatype Driven = Driven(s: State, result: Result<Outcome, SupervisorError>)

  // ---- Outcomes --------------------------------------------------------

  function Plain(kind: Kind, stream: u64): Outcome {
    Outcome(kind, 0, stream, 0, None, 0, 0, 0, Normal, NotHandedOff, None)
  }

  /** A deadline takes the token field when that is free, else the value field. */
  function WithDeadline(o: Outcome, timer: u64, ms: u64): Outcome {
    if o.token == 0 then o.(token := timer, flags := 4, deadlineMs := ms)
    else o.(value0 := timer, flags := 2, deadlineMs := ms)
  }

  function FrameDeadline(o: Outcome, timer: Option<u64>): Outcome {
    if timer.Some? then WithDeadline(o, timer.value, FRAME_DEADLINE_MS) else o
  }

  function Write(stream: u64, token: u64, bytes: seq<byte>): Outcome {
    Plain(WriteFrames, stream).(token := token, bytes := Some(bytes))
  }

  function Delivery(stream: u64, bytes: seq<byte>): Outcome {
    Plain(Application, stream).(handoff := HandoffPossibleOrConfirmed, bytes := Some(bytes))
  }

  function EndOutcome(kind: Kind, stream: u64, t: TerminalInfo): Outcome {
    Plain(kind, stream).(reason := t.reason, handoff := t.handoff, peerClose := t.peerClose)
  }

  // ---- Tokens and timers -----------------------------------------------

  datatype Alloc = Alloc(s: State, token: Option<u64>)

  function Allocate(s: State): Alloc {
    if s.nextToken == U64_MAX then Alloc(s, None)
    else Alloc(s.(nextToken := s.nextToken + 1), if s.nextToken == 0 then None else Some(s.nextToken))
  }

  function Schedule(s: State, action: TimerAction): Alloc {
    var a := Allocate(s);
    if a.token.None? then a else a.(s := a.s.(timers := a.s.timers[a.token.value := action]))
  }

  function Cancel(s: State, timer: Option<u64>): State {
    if timer.Some? then s.(timers := s.timers - {timer.value}) else s
  }

  /** The frame timer runs exactly while the decoder owes a frame; `started` is
      set when it has just been started. */
  datatype FrameTimer = FrameTimer(s: State, slot: Option<u64>, started: Option<u64>, failed: bool)

  function UpdateFrameTimer(s: State, incomplete: bool, slot: Option<u64>, action: TimerAction): (r: FrameTimer)
    ensures r.s.phase == s.phase && r.s.nextToken >= s.nextToken
  {
    if incomplete then
      if slot.Some? then FrameTimer(s, slot, None, false)
      else
        var a := Schedule(s, action);
        FrameTimer(a.s, a.token, a.token, a.token.None?)
    else FrameTimer(Cancel(s, slot), None, None, false)
  }

  function Incomplete(d: DecoderState): bool {
    d != Live([])
  }

  // ---- Ending ----------------------------------------------------------

  function LeaseHandoff(phase: Phase): Handoff {
    match phase
    case Leased(lease) =>
      if exists id :: id in lease.children && lease.children[id].applications > 0
      then HandoffPossibleOrConfirmed else NotHandedOff
    case Terminated(terminal) => terminal.handoff
    case _ => NotHandedOff
  }

  function EndLease(s: State, reason: CloseReason, peer: Option<PeerClose>): Driven {
    var info := TerminalInfo(reason, LeaseHandoff(s.phase), peer);
    Driven(s.(phase := Terminated(info), timers := map[]), Ok(EndOutcome(LeaseTerminal, 0, info)))
  }

  function LeaseError(s: State, error: CoreError): Driven {
    EndLease(s, error.reason, error.peerClose)
  }

  /** Removes the child with its timers; without one it only reports. */
  function EndChild(s: State, stream: u64, reason: CloseReason, peer: Option<PeerClose>): Driven {
    if s.phase.Leased? && stream in s.phase.lease.children then
      var child := s.phase.lease.children[stream];
      var handoff := if child.applications > 0 then HandoffPossibleOrConfirmed else NotHandedOff;
      var s1 := Cancel(Cancel(s, child.phaseTimer), child.frameTimer);
      Driven(s1.(phase := Leased(s.phase.lease.(children := s.phase.lease.children - {stream}))),
             Ok(EndOutcome(SessionTerminal, stream, TerminalInfo(reason, handoff, peer))))
    else Driven(s, Ok(EndOutcome(SessionTerminal, stream, TerminalInfo(reason, NotHandedOff, peer))))
  }

  function SetChild(s: State, stream: u64, child: Child): State
    requires s.phase.Leased?
  {
    s.(phase := Leased(s.phase.lease.(children := s.phase.lease.children[stream := child])))
  }

  /** A core error with a Close frame is first written out; the child waits for that. */
  function ChildError(s: State, stream: u64, error: CoreError): Driven
    requires s.phase.Leased? && stream in s.phase.lease.children
  {
    if error.closeFrame.None? then EndChild(s, stream, error.reason, error.peerClose)
    else
      var child := s.phase.lease.children[stream];
      var handoff := if child.applications > 0 then HandoffPossibleOrConfirmed else NotHandedOff;
      var info := TerminalInfo(error.reason, handoff, error.peerClose);
      var a := Allocate(s);
      if a.token.None? then EndChild(a.s, stream, InternalError, None)
      else
        var token := a.token.value;
        Driven(SetChild(a.s, stream, child.(phase := TerminalPending(token, info))),
               Ok(Write(stream, token, error.closeFrame.value).(
                    flags := 8, reason := info.reason, handoff := handoff, peerClose := info.peerClose)))
  }

  // ---- Bootstrap -------------------------------------------------------

  function Connected(s: State, event: Event, answers: Answers): Driven {
    if event.stream == 0 || event.token != 0 || event.bytes != [] then Driven(s, Err(InvalidArgument))
    else if !s.phase.AwaitBootstrap? then Driven(s, Err(WrongPhase))
    else
      var held := s.(phase := Terminated(InternalTerminal()));
      match answers.bootstrapM1
      case Err(error) => LeaseError(held, error)
      case Ok(frames) =>
        var a := Allocate(held);
        if a.token.None? then Driven(a.s, Err(Internal))
        else
          var timer := Schedule(a.s, Bootstrap);
          if timer.token.None? then Driven(timer.s, Err(Internal))
          else
            Driven(timer.s.(phase := BootstrapM1Pending(event.stream, a.token.value, Live([]), None)),
                   Ok(WithDeadline(Write(event.stream, a.token.value, frames), timer.token.value,
                                   BOOTSTRAP_DEADLINE_MS)))
  }

  function BootstrapBytes(s: State, event: Event, answers: Answers): Driven
    requires s.phase.BootstrapM2?
  {
    var held := s.(phase := Terminated(InternalTerminal()));
    var (decoder, pushed) := PushSpec(s.phase.decoder, event.bytes);
    match pushed
    case Err(reason) => EndLease(held, reason, None)
    case Ok(frames) =>
      var t := UpdateFrameTimer(held, Incomplete(decoder), s.phase.frameTimer, BootstrapFrame);
      if t.failed then Driven(t.s, Err(Internal))
      else if frames == [] then
        Driven(t.s.(phase := BootstrapM2(s.phase.stream, decoder, t.slot)),
               Ok(FrameDeadline(Plain(NeedInput, s.phase.stream), t.started)))
      else if |frames| != 1 then EndLease(t.s, SequenceViolation, None)
      else
        match answers.bootstrapM2
        case Err(error) => LeaseError(t.s, error)
        case Ok(admission) =>
          var a := Allocate(t.s);
          if a.token.None? then Driven(a.s, Err(Internal))
          else
            Driven(a.s.(phase := BootstrapAckPending(s.phase.stream, a.token.value, decoder, t.slot,
                                                     admission.generation, admission.epoch)),
                   Ok(FrameDeadline(Write(s.phase.stream, a.token.value, admission.ack), t.started)))
  }

  /** The acknowledgement is out: the lease begins. */
  function Admitted(s: State): Driven
    requires s.phase.BootstrapAckPending?
  {
    var held := s.(phase := Terminated(InternalTerminal()),
                   timers := map t | t in s.timers && !s.timers[t].Bootstrap? :: s.timers[t]);
    var tick := Schedule(held, LeaseTick);
    if tick.token.None? then Driven(tick.s, Err(Internal))
    else
      Driven(tick.s.(phase := Leased(Eligible(s.phase.stream, s.phase.generation, s.phase.epoch, s.phase.decoder, None,
                                              s.phase.frameTimer, tick.token, 0, 0, map[]))),
             Ok(WithDeadline(Plain(LeaseReady, s.phase.stream).(value0 := s.phase.generation, value1 := s.phase.epoch),
                             tick.token.value, LEASE_TICK_MS)))
  }

  // ---- Writes committed ------------------------------------------------

  function Committed(s: State, event: Event): Driven {
    if event.stream == 0 || event.token == 0 || event.bytes != [] then Driven(s, Err(InvalidArgument))
    else
      match s.phase
      case BootstrapM1Pending(stream, token, decoder, frameTimer) =>
        if stream == event.stream && token == event.token then
          Driven(s.(phase := BootstrapM2(stream, decoder, frameTimer)), Ok(Plain(NeedInput, stream)))
        else Driven(s, Err(WrongPhase))
      case BootstrapAckPending(stream, token, _, _, _, _) =>
        if stream == event.stream && token == event.token then Admitted(s) else Driven(s, Err(WrongPhase))
      case Leased(lease) =>
        if lease.leaseStream == event.stream then
          if lease.leaseWrite == Some(event.token) then
            Driven(s.(phase := Leased(lease.(leaseWrite := None))), Ok(Plain(NeedInput, event.stream)))
          else Driven(s, Err(WrongPhase))
        else CommittedChild(s, event.stream, event.token)
      case _ => Driven(s, Err(WrongPhase))
  }

  /** The child's phase timer is replaced: the old one stops, a new one starts. */
  function ReplacePhaseTimer(s: State, stream: u64, action: TimerAction): Alloc
    requires s.phase.Leased? && stream in s.phase.lease.children
  {
    var child := s.phase.lease.children[stream];
    var s1 := SetChild(Cancel(s, child.phaseTimer), stream, child.(phaseTimer := None));
    var a := Schedule(s1, action);
    if a.token.None? then a else a.(s := SetChild(a.s, stream, child.(phaseTimer := a.token)))
  }

  /** While a child's write is committed the supervisor's own phase is parked on
      a terminal placeholder, so ending the child there only reports. */
  function CommittedChild(s: State, stream: u64, token: u64): Driven
    requires s.phase.Leased?
  {
    var lease := s.phase.lease;
    if stream !in lease.children then Driven(s, Err(WrongPhase))
    else
      var child := lease.children[stream];
      match child.phase
      case M1Pending(expected) =>
        if expected != token then Driven(s, Err(WrongPhase))
        else Driven(SetChild(s, stream, child.(phase := AwaitM2)), Ok(Plain(NeedInput, stream)))
      case FinishedPending(expected) =>
        if expected != token then Driven(s, Err(WrongPhase))
        else Driven(SetChild(s, stream, child.(phase := AwaitFinished)), Ok(Plain(NeedInput, stream)))
      case ResponsePending(expected) =>
        if expected != token then Driven(s, Err(WrongPhase))
        else
          var a := ReplacePhaseTimer(SetChild(s, stream, child.(phase := AwaitApplication)), stream,
                                     SessionIdle(stream));
          if a.token.None? then Driven(a.s, Err(Internal))
          else Driven(a.s, Ok(WithDeadline(Plain(NeedInput, stream), a.token.value, SESSION_IDLE_DEADLINE_MS)))
      case TerminalPending(expected, terminal) =>
        if expected != token then Driven(s, Err(WrongPhase))
        else
          var parked := s.(phase := Terminated(InternalTerminal()));
          Driven(SetChild(s, stream, child.(phase := Gone)),
                 EndChild(parked, stream, terminal.reason, terminal.peerClose).result)
      case _ => Driven(s, Err(WrongPhase))
  }

  // ---- Sessions --------------------------------------------------------

  function Accepted(s: State, event: Event, answers: Answers): Driven {
    if event.stream == 0 || event.token != 0 || event.bytes != [] then Driven(s, Err(InvalidArgument))
    else if !s.phase.Leased? then Driven(s, Err(WrongPhase))
    else if event.stream == s.phase.lease.leaseStream || event.stream in s.phase.lease.children
    then Driven(s, Err(WrongPhase))
    else if answers.helloM1.None? then Driven(s, Err(Internal))
    else
      var a := Allocate(s);
      if a.token.None? then Driven(a.s, Err(Internal))
      else
        var timer := Schedule(a.s, SessionPhase(event.stream));
        if timer.token.None? then Driven(timer.s, Err(Internal))
        else
          Driven(SetChild(timer.s, event.stream, Child(M1Pending(a.token.value), Live([]), timer.token, None, 0)),
                 Ok(WithDeadline(Write(event.stream, a.token.value, answers.helloM1.value), timer.token.value,
                                 SESSION_HANDSHAKE_DEADLINE_MS)))
  }

  function Responded(s: State, event: Event, answers: Answers): Driven {
    if event.stream == 0 || event.token != 0 || event.bytes == [] then Driven(s, Err(InvalidArgument))
    else if !s.phase.Leased? || event.stream !in s.phase.lease.children then Driven(s, Err(WrongPhase))
    else
      var child := s.phase.lease.children[event.stream];
      if !child.phase.AwaitRuntime? then Driven(s, Err(WrongPhase))
      else
        var held := SetChild(s, event.stream, child.(phase := Gone));
        match answers.response
        case Err(error) => ChildError(held, event.stream, error)
        case Ok(parts) =>
          var a := Allocate(held);
          if a.token.None? then Driven(a.s, Err(Internal))
          else
            Driven(SetChild(a.s, event.stream, child.(phase := ResponsePending(a.token.value))),
                   Ok(Write(event.stream, a.token.value, Concat(parts))))
  }

  function Bytes(s: State, event: Event, answers: Answers): Driven {
    if event.stream == 0 || event.token != 0 || event.bytes == [] then Driven(s, Err(InvalidArgument))
    else
      match s.phase
      case BootstrapM2(stream, _, _) =>
        if stream == event.stream then BootstrapBytes(s, event, answers) else Driven(s, Err(WrongPhase))
      case Leased(lease) =>
        if lease.leaseStream == event.stream then LeaseBytes(s, event, answers)
        else if event.stream in lease.children then SessionBytes(s, event, answers)
        else Driven(s, Err(WrongPhase))
      case _ => Driven(s, Err(WrongPhase))
  }

  function LeaseBytes(s: State, event: Event, answers: Answers): Driven
    requires s.phase.Leased?
  {
    var lease := s.phase.lease;
    if lease.leaseWrite.Some? then Driven(s, Err(WrongPhase))
    else
      var (decoder, pushed) := PushSpec(lease.leaseDecoder, event.bytes);
      match pushed
      case Err(reason) => EndLease(s, reason, None)
      case Ok(frames) =>
        var t := UpdateFrameTimer(s, Incomplete(decoder), lease.leaseFrameTimer, LeaseFrame);
        var lease1 := lease.(leaseDecoder := decoder, leaseFrameTimer := t.slot);
        var s1 := t.s.(phase := Leased(lease1));
        if t.failed then Driven(s1, Err(Internal))
        else if frames == [] then Driven(s1, Ok(FrameDeadline(Plain(NeedInput, event.stream), t.started)))
        else if |frames| != 1 then EndLease(s1, SequenceViolation, None)
        else
          match answers.heartbeat
          case Err(error) => LeaseError(s1, error)
          case Ok(reply) =>
            var lease2 := lease1.(missedTicks := 0);
            var a := Allocate(s1.(phase := Leased(lease2)));
            if a.token.None? then Driven(a.s, Err(Internal))
            else
              Driven(a.s.(phase := Leased(lease2.(leaseWrite := a.token))),
                     Ok(FrameDeadline(Write(event.stream, a.token.value, reply), t.started)))
  }

  /** What a batch of application frames brought: at most one application. */
  datatype Batch = Quiet | One(bytes: seq<byte>) | Two | Failing(error: CoreError)

  function ReadBatch(answers: Answers, k: nat, n: nat, got: Option<seq<byte>>): Batch
    requires k <= n
    decreases n - k
  {
    if k == n then (if got.Some? then One(got.value) else Quiet)
    else
      match answers.application(k)
      case Err(error) => Failing(error)
      case Ok(None) => ReadBatch(answers, k + 1, n, got)
      case Ok(Some(bytes)) => if got.Some? then Two else ReadBatch(answers, k + 1, n, Some(bytes))
  }

  function SessionBytes(s: State, event: Event, answers: Answers): Driven
    requires s.phase.Leased? && event.stream in s.phase.lease.children
  {
    var stream := event.stream;
    var child := s.phase.lease.children[stream];
    var (decoder, pushed) := PushSpec(child.decoder, event.bytes);
    match pushed
    case Err(reason) =>
      ChildError(SetChild(s, stream, child.(decoder := decoder)), stream, CoreError(reason, None, None))
    case Ok(frames) =>
      var t := UpdateFrameTimer(s, Incomplete(decoder), child.frameTimer, SessionFrame(stream));
      var child1 := child.(decoder := decoder, frameTimer := t.slot);
      var s1 := SetChild(t.s, stream, child1);
      if t.failed then Driven(s1, Err(Internal))
      else if frames == [] then Driven(s1, Ok(FrameDeadline(Plain(NeedInput, stream), t.started)))
      else
        var held := SetChild(s1, stream, child1.(phase := Gone));
        match child.phase
        case AwaitM2 => ReadHello(held, stream, |frames|, answers, t.started)
        case AwaitFinished =>
          if answers.finished.Some? then ChildError(held, stream, answers.finished.value)
          else TakeBatch(held, stream, ReadBatch(answers, 1, |frames|, None), t.started)
        case AwaitApplication => TakeBatch(held, stream, ReadBatch(answers, 0, |frames|, None), t.started)
        case _ => Driven(s1, Err(WrongPhase))
  }

  function ReadHello(s: State, stream: u64, frames: nat, answers: Answers, started: Option<u64>): Driven
    requires s.phase.Leased? && stream in s.phase.lease.children
  {
    if frames != 1 then EndChild(s, stream, SequenceViolation, None)
    else
      match answers.helloM2
      case Err(error) => ChildError(s, stream, error)
      case Ok(finished) =>
        var a := Allocate(s);
        if a.token.None? then Driven(a.s, Err(Internal))
        else
          var child := s.phase.lease.children[stream];
          Driven(SetChild(a.s, stream, child.(phase := FinishedPending(a.token.value))),
                 Ok(FrameDeadline(Write(stream, a.token.value, finished), started)))
  }

  function TakeBatch(s: State, stream: u64, batch: Batch, started: Option<u64>): Driven
    requires s.phase.Leased? && stream in s.phase.lease.children
  {
    var child := s.phase.lease.children[stream];
    match batch
    case Failing(error) => ChildError(s, stream, error)
    case Two => EndChild(s, stream, SequenceViolation, None)
    case Quiet =>
      Driven(SetChild(s, stream, child.(phase := AwaitApplication)),
             Ok(FrameDeadline(Plain(NeedInput, stream), started)))
    case One(bytes) =>
      if child.applications == U64_MAX then Driven(s, Err(Internal))
      else HandOver(SetChild(s, stream, child.(phase := AwaitRuntime, applications := child.applications + 1)),
                    stream, bytes, started)
  }

  /** One application goes to the runtime, under a frame or a phase deadline. */
  function HandOver(s: State, stream: u64, bytes: seq<byte>, started: Option<u64>): Driven
    requires s.phase.Leased? && stream in s.phase.lease.children
  {
    var child := s.phase.lease.children[stream];
    if started.Some? then
      Driven(SetChild(Cancel(s, child.phaseTimer), stream, child.(phaseTimer := None)),
             Ok(FrameDeadline(Delivery(stream, bytes), started)))
    else
      var a := ReplacePhaseTimer(s, stream, SessionPhase(stream));
      var deadline := if child.applications == 1 then SESSION_OPEN_RESPONSE_DEADLINE_MS else SESSION_IDLE_DEADLINE_MS;
      if a.token.None? then Driven(a.s, Err(Internal))
      else Driven(a.s, Ok(WithDeadline(Delivery(stream, bytes), a.token.value, deadline)))
  }

  // ---- Streams ending --------------------------------------------------

  function ClosedStream(s: State, event: Event, answers: Answers): Driven {
    if event.stream == 0 || event.token != 0 || event.bytes != [] then Driven(s, Err(InvalidArgument))
    else
      var reason := if event.tag.StreamCloseNormal? then Normal else PeerClosed;
      var orderly := !event.tag.StreamIoFailed?;
      match s.phase
      case BootstrapM1Pending(stream, _, decoder, _) =>
        ClosedBootstrap(s, event.stream, stream, decoder, reason, orderly)
      case BootstrapM2(stream, decoder, _) => ClosedBootstrap(s, event.stream, stream, decoder, reason, orderly)
      case BootstrapAckPending(stream, _, decoder, _, _, _) =>
        ClosedBootstrap(s, event.stream, stream, decoder, reason, orderly)
      case Leased(lease) =>
        if lease.leaseStream == event.stream then
          var end := EndSpec(lease.leaseDecoder, Malformed).1;
          if orderly && end.Err? then EndLease(s, end.error, None) else EndLease(s, BrokerLost, None)
        else if event.stream !in lease.children then Driven(s, Err(WrongPhase))
        else
          var error := ChildEnd(lease.children[event.stream], answers);
          if orderly && error.Some? then ChildError(s, event.stream, error.value)
          else EndChild(s, event.stream, reason, None)
      case _ => Driven(s, Err(WrongPhase))
  }

  function ClosedBootstrap(s: State, stream: u64, own: u64, decoder: DecoderState, reason: CloseReason,
                           orderly: bool): Driven {
    if stream != own then Driven(s, Err(WrongPhase))
    else
      var end := EndSpec(decoder, Malformed).1;
      if orderly && end.Err? then EndLease(s, end.error, None) else EndLease(s, reason, None)
  }

  /** An unfinished frame or message is an error; a session that merely ends is not. */
  function ChildEnd(child: Child, answers: Answers): Option<CoreError> {
    var end := EndSpec(child.decoder, Malformed).1;
    if end.Err? then Some(CoreError(end.error, None, None))
    else if child.phase.TerminalPending? || child.phase.Gone? then None
    else
      match answers.endOfSession
      case Some(error) => if error.reason != PeerClosed then Some(error.(closeFrame := None)) else None
      case None => None
  }

  // ---- Timers ----------------------------------------------------------

  function Fired(s: State, event: Event): Driven {
    if event.stream != 0 || event.token == 0 || event.bytes != [] then Driven(s, Err(InvalidArgument))
    else if event.token !in s.timers then Driven(s, Ok(Plain(NeedInput, 0)))
    else
      var s1 := Cancel(s, Some(event.token));
      match s.timers[event.token]
      case Bootstrap => EndLease(s1, Timeout, None)
      case BootstrapFrame => EndLease(s1, Timeout, None)
      case LeaseFrame => EndLease(s1, Timeout, None)
      case LeaseTick => Ticked(s1, event.token)
      case SessionPhase(stream) => FiredChild(s1, stream, Timeout)
      case SessionFrame(stream) => FiredChild(s1, stream, Timeout)
      case SessionIdle(stream) => FiredChild(s1, stream, Stale)
  }

  function FiredChild(s: State, stream: u64, reason: CloseReason): Driven {
    if s.phase.Leased? && stream in s.phase.lease.children then EndChild(s, stream, reason, None)
    else Driven(s, Ok(Plain(NeedInput, 0)))
  }

  function Saturated(ticks: byte): byte {
    if ticks == 255 then 255 else ticks + 1
  }

  function Ticked(s: State, token: u64): Driven {
    if !s.phase.Leased? || s.phase.lease.leaseTickTimer != Some(token) then Driven(s, Ok(Plain(NeedInput, 0)))
    else
      var lease := s.phase.lease.(leaseTicks := Saturated(s.phase.lease.leaseTicks),
                                  missedTicks := Saturated(s.phase.lease.missedTicks));
      var s1 := s.(phase := Leased(lease));
      if lease.leaseTicks >= LEASE_TICKS then EndLease(s1, Stale, None)
      else if lease.missedTicks >= MISSED_TICKS then EndLease(s1, BrokerLost, None)
      else
        var a := Schedule(s1, LeaseTick);
        if a.token.None? then Driven(a.s, Err(Internal))
        else
          Driven(a.s.(phase := Leased(lease.(leaseTickTimer := a.token))),
                 Ok(WithDeadline(Plain(NeedInput, 0), a.token.value, LEASE_TICK_MS)))
  }

  /** The live tokens whose firing ends a session or the lease. */
  predicate EndsSomething(s: State, token: u64)
    requires token in s.timers
  {
    if s.timers[token].LeaseTick? then
      && s.phase.Leased? && s.phase.lease.leaseTickTimer == Some(token)
      && (Saturated(s.phase.lease.leaseTicks) >= LEASE_TICKS || Saturated(s.phase.lease.missedTicks) >= MISSED_TICKS)
    else true
  }

  function TerminalTimerTokens(s: State): set<u64> {
    set token | token in s.timers && EndsSomething(s, token)
  }

  // ---- The public calls ------------------------------------------------

  function Lost(s: State): Driven {
    if s.phase.Leased? && s.phase.lease.epoch as int + 1 > EPOCH_MAX then EndLease(s, InternalError, None)
    else EndLease(s, EligibilityLost, None)
  }

  function Drive(s: State, event: Event, answers: Answers): Driven {
    if s.phase.Terminated? then Driven(s, Ok(EndOutcome(LeaseTerminal, 0, s.phase.terminal)))
    else if event.flags != 0 then Driven(s, Err(InvalidArgument))
    else
      match event.tag
      case LostEligibility => if Bare(event) then Lost(s) else Driven(s, Err(InvalidArgument))
      case FailedCleanup => if Bare(event) then EndLease(s, CleanupFailed, None) else Driven(s, Err(InvalidArgument))
      case HitInternalError => if Bare(event) then EndLease(s, InternalError, None) else Driven(s, Err(InvalidArgument))
      case TimerFired => Fired(s, event)
      case BootstrapConnected => Connected(s, event, answers)
      case FullWriteCommitted => Committed(s, event)
      case SessionAccepted => Accepted(s, event, answers)
      case RuntimeResponse => Responded(s, event, answers)
      case StreamBytes => Bytes(s, event, answers)
      case _ => ClosedStream(s, event, answers)
  }

  predicate Bare(event: Event) {
    event.stream == 0 && event.token == 0 && event.bytes == []
  }

  /** What closing from outside leaves. */
  function Shut(s: State): State {
    s.(phase := Terminated(TerminalInfo(Normal, NotHandedOff, None)), timers := map[])
  }

  function NewState(): State {
    State(AwaitBootstrap, 1, map[])
  }
}
