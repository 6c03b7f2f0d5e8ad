/** What the supervisor answers: which events it refuses, and what a lease and its
    sessions get done. */
module SupervisorService {
  import opened Common
  import opened Terms
  import opened Framing
  import opened Supervisor
  import opened SupervisorTimers
  import opened SupervisorRuns
  import opened SupervisorGaps

  // ---- Refusals --------------------------------------------------------

  /** An event carries a stream, a token and bytes as its tag asks, and no flags. */
  predicate WellShaped(event: Event) {
    && event.flags == 0
    && (event.stream != 0 <==> event.tag !in {TimerFired, LostEligibility, FailedCleanup, HitInternalError})
    && (event.token != 0 <==> event.tag in {TimerFired, FullWriteCommitted})
    && (event.bytes != [] <==> event.tag in {StreamBytes, RuntimeResponse})
  }

  /** The token of the write that is under way on a stream. */
  function WriteUnderWay(s: State, stream: u64): Option<u64> {
    match s.phase
    case BootstrapM1Pending(own, token, _, _) => if own == stream then Some(token) else None
    case BootstrapAckPending(own, token, _, _, _, _) => if own == stream then Some(token) else None
    case Leased(lease) =>
      if stream == lease.leaseStream then lease.leaseWrite
      else if stream !in lease.children then None
      else
        (match lease.children[stream].phase
         case M1Pending(token) => Some(token)
         case FinishedPending(token) => Some(token)
         case ResponsePending(token) => Some(token)
         case TerminalPending(token, _) => Some(token)
         case _ => None)
    case _ => None
  }

  predicate IsSessionStream(s: State, stream: u64) {
    s.phase.Leased? && stream in s.phase.lease.children
  }

  predicate IsLeaseStream(s: State, stream: u64) {
    s.phase.Leased? && s.phase.lease.leaseStream == stream
  }

  predicate IsBootstrapStream(s: State, stream: u64) {
    (s.phase.BootstrapM1Pending? || s.phase.BootstrapM2? || s.phase.BootstrapAckPending?) && s.phase.stream == stream
  }

  /** Somebody is waiting for the event. */
  predicate Awaited(s: State, event: Event) {
    match event.tag
    case BootstrapConnected => s.phase.AwaitBootstrap?
    case FullWriteCommitted => WriteUnderWay(s, event.stream) == Some(event.token)
    case SessionAccepted =>
      s.phase.Leased? && !IsLeaseStream(s, event.stream) && !IsSessionStream(s, event.stream)
    case RuntimeResponse => IsSessionStream(s, event.stream) && s.phase.lease.children[event.stream].phase.AwaitRuntime?
    case StreamBytes =>
      || (s.phase.BootstrapM2? && IsBootstrapStream(s, event.stream))
      || (IsLeaseStream(s, event.stream) && s.phase.lease.leaseWrite.None?)
      || (IsSessionStream(s, event.stream) && !LosesFrames(s, event))
    case TimerFired => true
    case LostEligibility => true
    case FailedCleanup => true
    case HitInternalError => true
    case _ =>
      IsBootstrapStream(s, event.stream) || IsLeaseStream(s, event.stream) || IsSessionStream(s, event.stream)
  }

  /** Few tokens left, no first message to write, or no more applications to count. */
  predicate AtTheEnd(s: State, event: Event, answers: Answers) {
    || s.nextToken as int + 2 >= U64_MAX
    || (event.tag.SessionAccepted? && answers.helloM1.None?)
    || (IsSessionStream(s, event.stream) && s.phase.lease.children[event.stream].applications == U64_MAX)
  }

  /** The three refusals, each with its only cause. */
  predicate Refused(s: State, event: Event, answers: Answers, d: Driven) {
    && (d.result == Err(InvalidArgument) <==> !WellShaped(event))
    && (d.result == Err(WrongPhase) <==> WellShaped(event) && !Awaited(s, event))
    && (d.result == Err(Internal) ==> WellShaped(event) && Awaited(s, event) && AtTheEnd(s, event, answers))
  }

  /** Never refused. */
  predicate Goes(d: Driven) {
    d.result.Ok?
  }

  /** Refused at most because something has run out. */
  predicate GoesOrEnds(d: Driven, ended: bool) {
    d.result.Ok? || (d.result == Err(Internal) && ended)
  }

  lemma EndingGoes(s: State, id: u64, reason: CloseReason, peer: Option<PeerClose>)
    ensures Goes(EndChild(s, id, reason, peer)) && Goes(EndLease(s, reason, peer))
  {
    hide LeaseHandoff;
  }

  lemma ErrorGoes(s: State, id: u64, error: CoreError)
    requires s.phase.Leased? && id in s.phase.lease.children
    ensures Goes(ChildError(s, id, error))
  {
    hide EndChild;
    EndingGoes(s, id, error.reason, error.peerClose);
    EndingGoes(Allocate(s).s, id, InternalError, None);
  }

  lemma ReadingGoes(s: State, id: u64, n: nat, answers: Answers, batch: Batch, started: Option<u64>)
    requires s.phase.Leased? && id in s.phase.lease.children && s.nextToken > 0
    ensures GoesOrEnds(ReadHello(s, id, n, answers, started), s.nextToken == U64_MAX)
    ensures GoesOrEnds(TakeBatch(s, id, batch, started),
                       s.nextToken == U64_MAX || s.phase.lease.children[id].applications == U64_MAX)
  {
    hide EndChild, ChildError, SetChild;
    EndingGoes(s, id, SequenceViolation, None);
    if answers.helloM2.Err? {
      ErrorGoes(s, id, answers.helloM2.error);
    }
    if batch.Failing? {
      ErrorGoes(s, id, batch.error);
    }
    if batch.One? && s.phase.lease.children[id].applications < U64_MAX {
      var c := s.phase.lease.children[id];
      HandingGoes(SetChild(s, id, c.(phase := AwaitRuntime, applications := c.applications + 1)), s, id, batch.bytes,
                  started);
    }
  }

  lemma HandingGoes(s: State, was: State, id: u64, bytes: seq<byte>, started: Option<u64>)
    requires was.phase.Leased? && id in was.phase.lease.children
    requires exists c :: s == SetChild(was, id, c)
    requires was.nextToken > 0
    ensures GoesOrEnds(HandOver(s, id, bytes, started), was.nextToken == U64_MAX)
  {
  }

  lemma BytesRefused(s: State, event: Event, answers: Answers)
    requires Coherent(s) && ToSession(s, event)
    ensures Refused(s, event, answers, SessionBytes(s, event, answers))
  {
    hide Scan, Coherent, ReadBatch, ChildError, ReadHello, TakeBatch, EndChild, FrameDeadline;
    var id := event.stream;
    OwnedByLive(s, id);
    var c := Addressed(s, event);
    if Arriving(s, event).Broken? {
      ErrorGoes(SetChild(s, id, c.(decoder := Failed)), id, CoreError(Malformed, None, None));
    } else {
      var decoder, n := Live(Arriving(s, event).tail), |Arriving(s, event).frames|;
      var t := UpdateFrameTimer(s, Incomplete(decoder), c.frameTimer, SessionFrame(id));
      var c1 := c.(decoder := decoder, frameTimer := t.slot);
      var s1 := SetChild(t.s, id, c1);
      FrameTimerTells(s, id, c, decoder);
      if !t.failed && n > 0 {
        var held := SetChild(s1, id, c1.(phase := Gone));
        ReadingGoes(held, id, n, answers, ReadBatch(answers, 0, n, None), t.started);
        ReadingGoes(held, id, n, answers, ReadBatch(answers, 1, n, None), t.started);
        if answers.finished.Some? {
          ErrorGoes(held, id, answers.finished.value);
        }
      }
    }
  }

  lemma EarlyRefused(s: State, event: Event, answers: Answers)
    requires Coherent(s) && !s.phase.Leased? && !s.phase.Terminated? && event.flags == 0
    requires event.tag.StreamBytes? || event.tag.BootstrapConnected? || event.tag.FullWriteCommitted?
    ensures Refused(s, event, answers, Drive(s, event, answers))
  {
    hide Scan, LiveTimers, LeaseHandoff;
  }

  lemma EndRefused(s: State, event: Event, answers: Answers)
    requires Coherent(s) && !s.phase.Leased? && !s.phase.Terminated? && event.flags == 0
    requires !(event.tag.StreamBytes? || event.tag.BootstrapConnected? || event.tag.FullWriteCommitted?)
    ensures Refused(s, event, answers, Drive(s, event, answers))
  {
    hide LiveTimers, LeaseHandoff;
  }

  lemma LeaseBytesRefused(s: State, event: Event, answers: Answers)
    requires Coherent(s) && s.phase.Leased? && event.stream == s.phase.lease.leaseStream
    requires WellShaped(event) && event.tag.StreamBytes?
    ensures Refused(s, event, answers, LeaseBytes(s, event, answers))
  {
    hide Scan, LiveTimers, LeaseHandoff;
    LeaseStreamIsNoChild(s);
  }

  lemma CommittedRefused(s: State, event: Event, answers: Answers)
    requires Coherent(s) && s.phase.Leased? && event.flags == 0 && event.tag.FullWriteCommitted?
    ensures Refused(s, event, answers, Committed(s, event))
  {
    hide LiveTimers, EndChild;
    LeaseStreamIsNoChild(s);
    var id := event.stream;
    if id in s.phase.lease.children && s.phase.lease.children[id].phase.TerminalPending? {
      var t := s.phase.lease.children[id].phase.terminal;
      EndingGoes(s.(phase := Terminated(InternalTerminal())), id, t.reason, t.peerClose);
    }
  }

  lemma AcceptedRefused(s: State, event: Event, answers: Answers)
    requires Coherent(s) && s.phase.Leased? && event.flags == 0 && event.tag.SessionAccepted?
    ensures Refused(s, event, answers, Accepted(s, event, answers))
  {
    hide LiveTimers;
  }

  lemma RespondedRefused(s: State, event: Event, answers: Answers)
    requires Coherent(s) && s.phase.Leased? && event.flags == 0 && event.tag.RuntimeResponse?
    ensures Refused(s, event, answers, Responded(s, event, answers))
  {
    hide LiveTimers, ChildError;
    var id := event.stream;
    if id in s.phase.lease.children && answers.response.Err? {
      ErrorGoes(SetChild(s, id, s.phase.lease.children[id].(phase := Gone)), id, answers.response.error);
    }
  }

  lemma ClosedRefused(s: State, event: Event, answers: Answers)
    requires Coherent(s) && s.phase.Leased? && event.flags == 0
    requires event.tag in {StreamEof, StreamIoFailed, StreamCloseNormal}
    ensures Refused(s, event, answers, ClosedStream(s, event, answers))
  {
    hide LiveTimers, LeaseHandoff, ChildEnd, ChildError, EndChild;
    var id := event.stream;
    if id in s.phase.lease.children {
      var error := ChildEnd(s.phase.lease.children[id], answers);
      if error.Some? {
        ErrorGoes(s, id, error.value);
      }
      EndingGoes(s, id, if event.tag.StreamCloseNormal? then Normal else PeerClosed, None);
    }
  }

  lemma FiredRefused(s: State, event: Event, answers: Answers)
    requires Coherent(s) && s.phase.Leased? && event.flags == 0 && event.tag.TimerFired?
    ensures Refused(s, event, answers, Fired(s, event))
  {
    hide Coherent, LeaseHandoff;
    TokensAreSmall(s);
  }

  /** While the lease has not ended, an event is refused as invalid exactly if it is
      not shaped as its tag asks, and as untimely exactly if nobody waits for it; and
      a call fails for no other reason than that something has run out. */
  lemma RefusedExactly(s: State, event: Event, answers: Answers)
    requires Coherent(s) && !s.phase.Terminated?
    ensures Refused(s, event, answers, Drive(s, event, answers))
  {
    hide Coherent, SessionBytes, LeaseBytes, Committed, Fired, Accepted, Responded, ClosedStream, LeaseHandoff, Scan;
    if event.flags != 0 {
    } else if !s.phase.Leased? {
      if event.tag.StreamBytes? || event.tag.BootstrapConnected? || event.tag.FullWriteCommitted? {
        EarlyRefused(s, event, answers);
      } else {
        EndRefused(s, event, answers);
      }
    } else {
      LeaseStreamIsNoChild(s);
      match event.tag {
        case FullWriteCommitted => CommittedRefused(s, event, answers);
        case TimerFired => FiredRefused(s, event, answers);
        case SessionAccepted => AcceptedRefused(s, event, answers);
        case RuntimeResponse => RespondedRefused(s, event, answers);
        case StreamBytes =>
          if ToSession(s, event) {
            BytesRefused(s, event, answers);
          } else if WellShaped(event) && event.stream == s.phase.lease.leaseStream {
            LeaseBytesRefused(s, event, answers);
          }
        case StreamEof => ClosedRefused(s, event, answers);
        case StreamIoFailed => ClosedRefused(s, event, answers);
        case StreamCloseNormal => ClosedRefused(s, event, answers);
        case _ =>
      }
    }
  }

  // ---- A lease is begun ------------------------------------------------

  /** Bytes that are exactly so many complete envelopes. */
  predicate Whole(bytes: seq<byte>, frames: nat) {
    && bytes != [] && Scan(bytes).Scanned? && |Scan(bytes).frames| == frames && Scan(bytes).tail == []
  }

  lemma WholePushes(bytes: seq<byte>, frames: nat)
    requires Whole(bytes, frames)
    ensures PushSpec(Live([]), bytes) == (Live([]), Ok(Scan(bytes).frames))
  {
    hide Scan;
    assert [] + bytes == bytes;
  }

  function Connect(stream: u64): Event {
    Event(BootstrapConnected, 0, stream, 0, [])
  }

  function Commit(stream: u64, token: u64): Event {
    Event(FullWriteCommitted, 0, stream, token, [])
  }

  function Arrive(stream: u64, bytes: seq<byte>): Event {
    Event(StreamBytes, 0, stream, 0, bytes)
  }

  function Accept(stream: u64): Event {
    Event(SessionAccepted, 0, stream, 0, [])
  }

  function Respond(stream: u64, bytes: seq<byte>): Event {
    Event(RuntimeResponse, 0, stream, 0, bytes)
  }

  /** The call asks for these bytes to be written. */
  predicate Writes(d: Driven, stream: u64, bytes: seq<byte>) {
    && d.result.Ok? && d.result.value.kind.WriteFrames? && d.result.value.stream == stream
    && d.result.value.bytes == Some(bytes) && d.result.value.flags != 8
    && Tok(d) != 0 && WriteUnderWay(d.s, stream) == Some(Tok(d))
  }

  predicate Waits(d: Driven, stream: u64) {
    d.result.Ok? && d.result.value.kind.NeedInput? && d.result.value.stream == stream
  }

  function Tok(d: Driven): u64 {
    if d.result.Ok? then d.result.value.token else 0
  }

  lemma WritesToken(d: Driven, stream: u64, bytes: seq<byte>)
    requires Writes(d, stream, bytes)
    ensures Tok(d) != 0
  {
  }

  /** From the very start, with cores that agree: the bootstrap message is written,
      the Broker's answer is acknowledged, and the lease begins with the generation
      and the epoch the core was admitted with, and no session. */
  lemma LeaseBegins(stream: u64, bytes: seq<byte>, a: Answers)
    requires stream != 0 && Whole(bytes, 1) && a.bootstrapM1.Ok? && a.bootstrapM2.Ok?
    ensures var d1 := Drive(NewState(), Connect(stream), a);
            var d2 := Drive(d1.s, Commit(stream, Tok(d1)), a);
            var d3 := Drive(d2.s, Arrive(stream, bytes), a);
            var d4 := Drive(d3.s, Commit(stream, Tok(d3)), a);
            && Writes(d1, stream, a.bootstrapM1.value) && Waits(d2, stream)
            && Writes(d3, stream, a.bootstrapM2.value.ack)
            && d4.result.Ok? && d4.result.value.kind.LeaseReady? && d4.result.value.stream == stream
            && d4.result.value.value0 == a.bootstrapM2.value.generation
            && d4.result.value.value1 == a.bootstrapM2.value.epoch
            && Coherent(d4.s) && IsLeaseStream(d4.s, stream)
            && d4.s.phase.lease.generation == a.bootstrapM2.value.generation
            && d4.s.phase.lease.epoch == a.bootstrapM2.value.epoch
            && d4.s.phase.lease.children == map[]
  {
    hide Coherent, Scan;
    WholePushes(bytes, 1);
    NewIsCoherent();
    var d1 := Drive(NewState(), Connect(stream), a);
    var d2 := Drive(d1.s, Commit(stream, Tok(d1)), a);
    var d3 := Drive(d2.s, Arrive(stream, bytes), a);
    DriveKeeps(NewState(), Connect(stream), a);
    DriveKeeps(d1.s, Commit(stream, Tok(d1)), a);
    DriveKeeps(d2.s, Arrive(stream, bytes), a);
    DriveKeeps(d3.s, Commit(stream, Tok(d3)), a);
  }

  // ---- A session is served ---------------------------------------------

  /** A session in this phase, with no frame begun, and so many applications had. */
  predicate Serving(s: State, id: u64, phase: ChildPhase, applications: nat) {
    && Coherent(s) && s.phase.Leased? && id != 0 && id in s.phase.lease.children
    && s.phase.lease.children[id].phase == phase && s.phase.lease.children[id].decoder == Live([])
    && s.phase.lease.children[id].applications == applications
  }

  /** So many tokens are left. */
  predicate Left(s: State, tokens: nat) {
    s.nextToken as int + tokens <= U64_MAX
  }

  lemma ServingSlots(s: State, id: u64, phase: ChildPhase, n: nat)
    requires Serving(s, id, phase, n)
    ensures s.nextToken > 0 && id != s.phase.lease.leaseStream && s.phase.lease.children[id].frameTimer.None?
  {
    hide LiveTimers;
  }

  lemma AcceptServes(s: State, id: u64, a: Answers)
    requires Coherent(s) && s.phase.Leased? && id != 0 && id != s.phase.lease.leaseStream
    requires id !in s.phase.lease.children && a.helloM1.Some? && Left(s, 2)
    ensures var d := Drive(s, Accept(id), a);
            && Writes(d, id, a.helloM1.value) && Serving(d.s, id, M1Pending(Tok(d)), 0)
            && d.s.nextToken == s.nextToken + 2
  {
    hide Coherent;
    DriveKeeps(s, Accept(id), a);
    Positive(s);
  }

  lemma Positive(s: State)
    requires Coherent(s)
    ensures s.nextToken > 0
  {
  }

  lemma CommitServes(s: State, id: u64, token: u64, n: nat, a: Answers)
    requires token != 0
    ensures var d := Drive(s, Commit(id, token), a);
            && (Serving(s, id, M1Pending(token), n) ==>
                  Waits(d, id) && Serving(d.s, id, AwaitM2, n) && d.s.nextToken == s.nextToken)
            && (Serving(s, id, FinishedPending(token), n) ==>
                  Waits(d, id) && Serving(d.s, id, AwaitFinished, n) && d.s.nextToken == s.nextToken)
            && (Serving(s, id, ResponsePending(token), n) && Left(s, 1) ==>
                  Waits(d, id) && Serving(d.s, id, AwaitApplication, n) && d.s.nextToken == s.nextToken + 1)
  {
    hide Coherent, EndChild, Fired, SessionBytes, LeaseBytes;
    if && s.phase.Leased? && id in s.phase.lease.children && Coherent(s) && id != 0
       && s.phase.lease.children[id].decoder == Live([]) {
      DriveKeeps(s, Commit(id, token), a);
      ServingSlots(s, id, s.phase.lease.children[id].phase, s.phase.lease.children[id].applications);
    }
  }

  /** Complete envelopes for a session that waits for them leave no timer behind. */
  lemma BytesAreBatch(s: State, id: u64, phase: ChildPhase, n: nat, bytes: seq<byte>, frames: nat, a: Answers)
    requires Serving(s, id, phase, n) && Whole(bytes, frames) && frames > 0
    requires phase.AwaitM2? || phase.AwaitFinished? || phase.AwaitApplication?
    ensures ToSession(s, Arrive(id, bytes))
    ensures var held := SetChild(s, id, s.phase.lease.children[id].(phase := Gone));
            Drive(s, Arrive(id, bytes), a)
            == if phase.AwaitM2? then ReadHello(held, id, frames, a, None)
               else if phase.AwaitFinished? && a.finished.Some? then ChildError(held, id, a.finished.value)
               else TakeBatch(held, id, ReadBatch(a, if phase.AwaitFinished? then 1 else 0, frames, None), None)
  {
    hide Coherent, Scan, ReadHello, ChildError, TakeBatch, ReadBatch;
    WholePushes(bytes, frames);
    ServingSlots(s, id, phase, n);
    var c := s.phase.lease.children[id];
    assert c.(decoder := Live([]), frameTimer := None) == c;
    assert s.phase.lease.children[id := c] == s.phase.lease.children;
    assert SetChild(s, id, c) == s;
  }

  lemma HelloServes(s: State, id: u64, n: nat, bytes: seq<byte>, a: Answers)
    requires Serving(s, id, AwaitM2, n) && Whole(bytes, 1) && a.helloM2.Ok? && Left(s, 1)
    ensures var d := Drive(s, Arrive(id, bytes), a);
            && Writes(d, id, a.helloM2.value) && Serving(d.s, id, FinishedPending(Tok(d)), n)
            && d.s.nextToken == s.nextToken + 1
  {
    hide Coherent, Scan, Drive;
    ServingSlots(s, id, AwaitM2, n);
    BytesAreBatch(s, id, AwaitM2, n, bytes, 1, a);
    DriveKeeps(s, Arrive(id, bytes), a);
  }

  lemma FinishedServes(s: State, id: u64, n: nat, bytes: seq<byte>, a: Answers)
    requires Serving(s, id, AwaitFinished, n) && Whole(bytes, 1) && a.finished.None?
    ensures var d := Drive(s, Arrive(id, bytes), a);
            Waits(d, id) && Serving(d.s, id, AwaitApplication, n) && d.s.nextToken == s.nextToken
  {
    hide Coherent, Scan, Drive;
    BytesAreBatch(s, id, AwaitFinished, n, bytes, 1, a);
    DriveKeeps(s, Arrive(id, bytes), a);
  }

  /** The call hands exactly these bytes of one application to the runtime. */
  predicate Delivers(d: Driven, stream: u64, bytes: seq<byte>) {
    && d.result.Ok? && d.result.value.kind.Application? && d.result.value.stream == stream
    && d.result.value.bytes == Some(bytes) && d.result.value.handoff.HandoffPossibleOrConfirmed?
  }

  lemma ApplicationServes(s: State, id: u64, n: nat, bytes: seq<byte>, application: seq<byte>, a: Answers)
    requires Serving(s, id, AwaitApplication, n) && Whole(bytes, 1) && a.application(0) == Ok(Some(application))
    requires Left(s, 1) && n < U64_MAX
    ensures var d := Drive(s, Arrive(id, bytes), a);
            Delivers(d, id, application) && Serving(d.s, id, AwaitRuntime, n + 1) && d.s.nextToken == s.nextToken + 1
  {
    hide Coherent, Scan, Drive, ReadBatch;
    ServingSlots(s, id, AwaitApplication, n);
    BytesAreBatch(s, id, AwaitApplication, n, bytes, 1, a);
    SingleIsOne(a, application);
    DriveKeeps(s, Arrive(id, bytes), a);
  }

  lemma SingleIsOne(a: Answers, application: seq<byte>)
    requires a.application(0) == Ok(Some(application))
    ensures ReadBatch(a, 0, 1, None) == One(application)
  {
  }

  lemma ResponseServes(s: State, id: u64, n: nat, bytes: seq<byte>, a: Answers)
    requires Serving(s, id, AwaitRuntime, n) && bytes != [] && a.response.Ok? && Left(s, 1)
    ensures var d := Drive(s, Respond(id, bytes), a);
            && Writes(d, id, Concat(a.response.value)) && Serving(d.s, id, ResponsePending(Tok(d)), n)
            && d.s.nextToken == s.nextToken + 1
  {
    hide Coherent;
    ServingSlots(s, id, AwaitRuntime, n);
    DriveKeeps(s, Respond(id, bytes), a);
  }

  /** A stream that is accepted in any lease with tokens to spare becomes a session:
      its first message is written, the answer is taken for the Finished, which is
      written, and the peer's Finished leaves it waiting for an application. */
  lemma SessionOpens(s: State, id: u64, hello: seq<byte>, finished: seq<byte>, a: Answers)
    requires Coherent(s) && s.phase.Leased? && id != 0 && id != s.phase.lease.leaseStream
    requires id !in s.phase.lease.children && Left(s, 3)
    requires a.helloM1.Some? && a.helloM2.Ok? && a.finished.None? && Whole(hello, 1) && Whole(finished, 1)
    ensures var d1 := Drive(s, Accept(id), a);
            var d2 := Drive(d1.s, Commit(id, Tok(d1)), a);
            var d3 := Drive(d2.s, Arrive(id, hello), a);
            var d4 := Drive(d3.s, Commit(id, Tok(d3)), a);
            var d5 := Drive(d4.s, Arrive(id, finished), a);
            && Writes(d1, id, a.helloM1.value) && Waits(d2, id) && Writes(d3, id, a.helloM2.value)
            && Waits(d4, id) && Waits(d5, id) && Serving(d5.s, id, AwaitApplication, 0)
            && d5.s.nextToken == s.nextToken + 3
  {
    hide Coherent, Scan, Drive, Writes, Waits, Whole;
    var d1 := Drive(s, Accept(id), a);
    AcceptServes(s, id, a);
    WritesToken(d1, id, a.helloM1.value);
    CommitServes(d1.s, id, Tok(d1), 0, a);
    var d2 := Drive(d1.s, Commit(id, Tok(d1)), a);
    HelloServes(d2.s, id, 0, hello, a);
    var d3 := Drive(d2.s, Arrive(id, hello), a);
    WritesToken(d3, id, a.helloM2.value);
    CommitServes(d3.s, id, Tok(d3), 0, a);
    var d4 := Drive(d3.s, Commit(id, Tok(d3)), a);
    FinishedServes(d4.s, id, 0, finished, a);
  }

  /** And every exchange after that comes about: an application is handed to the
      runtime as the core read it, its response is written in one piece, and the
      session waits for the next application, with one more behind it. */
  lemma SessionExchanges(s: State, id: u64, n: nat, bytes: seq<byte>, application: seq<byte>, response: seq<byte>,
                         a: Answers)
    requires Serving(s, id, AwaitApplication, n) && n < U64_MAX && Left(s, 3)
    requires Whole(bytes, 1) && response != [] && a.application(0) == Ok(Some(application)) && a.response.Ok?
    ensures var d1 := Drive(s, Arrive(id, bytes), a);
            var d2 := Drive(d1.s, Respond(id, response), a);
            var d3 := Drive(d2.s, Commit(id, Tok(d2)), a);
            && Delivers(d1, id, application) && Writes(d2, id, Concat(a.response.value)) && Waits(d3, id)
            && Serving(d3.s, id, AwaitApplication, n + 1) && d3.s.nextToken == s.nextToken + 3
  {
    hide Coherent, Scan, Drive, Writes, Waits, Whole, Delivers;
    ApplicationServes(s, id, n, bytes, application, a);
    var d1 := Drive(s, Arrive(id, bytes), a);
    ResponseServes(d1.s, id, n + 1, response, a);
    var d2 := Drive(d1.s, Respond(id, response), a);
    WritesToken(d2, id, Concat(a.response.value));
    CommitServes(d2.s, id, Tok(d2), n + 1, a);
  }

  // ---- A heartbeat is answered -----------------------------------------

  /** The lease stream with no frame begun and no write under way. */
  predicate Listening(s: State) {
    && Coherent(s) && s.phase.Leased? && s.phase.lease.leaseStream != 0 && s.phase.lease.leaseWrite.None?
    && s.phase.lease.leaseDecoder == Live([])
  }

  /** A heartbeat that the core accepts is answered with the core's bytes, and no tick
      is missed any more; once that is written the lease listens again, and nothing
      else has changed. */
  lemma HeartbeatIsAnswered(s: State, bytes: seq<byte>, a: Answers)
    requires Listening(s) && Whole(bytes, 1) && a.heartbeat.Ok? && Left(s, 1)
    ensures var stream := s.phase.lease.leaseStream;
            var d1 := Drive(s, Arrive(stream, bytes), a);
            var d2 := Drive(d1.s, Commit(stream, Tok(d1)), a);
            && Writes(d1, stream, a.heartbeat.value) && Waits(d2, stream) && Listening(d2.s)
            && d2.s.phase == Leased(s.phase.lease.(missedTicks := 0)) && d2.s.timers == s.timers
  {
    hide Coherent, Scan;
    WholePushes(bytes, 1);
    ListeningSlots(s);
    var stream := s.phase.lease.leaseStream;
    var d1 := Drive(s, Arrive(stream, bytes), a);
    DriveKeeps(s, Arrive(stream, bytes), a);
    DriveKeeps(d1.s, Commit(stream, Tok(d1)), a);
  }

  lemma ListeningSlots(s: State)
    requires Listening(s)
    ensures s.nextToken > 0 && s.phase.lease.leaseFrameTimer.None?
    ensures s.phase.lease.leaseStream !in s.phase.lease.children
  {
    hide LiveTimers;
  }
}
