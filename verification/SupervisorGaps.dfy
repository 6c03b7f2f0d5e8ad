/** Two gaps of the supervisor and their exact conditions: input that is taken
    although the call is refused, and timers whose deadline nobody is told. */
module SupervisorGaps {
  import opened Common
  import opened Terms
  import opened Framing
  import opened Supervisor
  import opened SupervisorTimers
  import opened SupervisorRuns

  // ---- Refused, but not untouched --------------------------------------

  /** A session that is not waiting for the peer. */
  predicate Deaf(phase: ChildPhase) {
    !phase.AwaitM2? && !phase.AwaitFinished? && !phase.AwaitApplication?
  }

  /** Bytes for a session that is not waiting for the peer complete a frame. */
  predicate LosesFrames(s: State, event: Event) {
    && ToSession(s, event) && Deaf(Addressed(s, event).phase)
    && Arriving(s, event).Scanned? && Arriving(s, event).frames != []
    && TimerToSpare(s, Addressed(s, event).frameTimer, Arriving(s, event).tail)
  }

  /** The session after its frames are lost: its decoder holds the leftover and
      its frame timer runs exactly while there is one. */
  predicate Drained(s: State, event: Event, s': State)
    requires ToSession(s, event)
  {
    && s'.phase.Leased? && event.stream in s'.phase.lease.children
    && var was, now := Addressed(s, event), s'.phase.lease.children[event.stream];
       && Arriving(s, event).Scanned?
       && now == was.(decoder := Live(Arriving(s, event).tail), frameTimer := now.frameTimer)
       && s'.phase.lease == s.phase.lease.(children := s.phase.lease.children[event.stream := now])
       && (if Arriving(s, event).tail == [] then
             && now.frameTimer.None? && s'.nextToken == s.nextToken
             && s'.timers == if was.frameTimer.Some? then s.timers - {was.frameTimer.value} else s.timers
           else if was.frameTimer.Some? then
             now.frameTimer == was.frameTimer && s'.nextToken == s.nextToken && s'.timers == s.timers
           else
             && now.frameTimer == Some(s.nextToken) && s'.nextToken == s.nextToken + 1
             && s'.timers == s.timers[s.nextToken := SessionFrame(event.stream)])
  }

  lemma OwnedByLive(s: State, id: u64)
    requires Coherent(s) && s.phase.Leased? && id in s.phase.lease.children
    ensures s.nextToken !in s.timers && s.nextToken > 0
    ensures var c := s.phase.lease.children[id];
            && c.decoder.Live? && (c.frameTimer.Some? ==> Incomplete(c.decoder) && c.frameTimer.value in s.timers)
            && (Incomplete(c.decoder) && s.nextToken < U64_MAX ==> c.frameTimer.Some?)
            && (c.phaseTimer.Some? ==> c.phaseTimer.value in s.timers)
            && (c.phaseTimer.Some? && c.frameTimer.Some? ==> c.phaseTimer != c.frameTimer)
  {
  }

  /** What a session is given to read never counts as the wrong phase. */
  lemma ReadingIsTimely(s: State, id: u64, frames: nat, batch: Batch, answers: Answers, started: Option<u64>)
    requires s.phase.Leased? && id in s.phase.lease.children
    ensures ReadHello(s, id, frames, answers, started).result != Err(WrongPhase)
    ensures TakeBatch(s, id, batch, started).result != Err(WrongPhase)
    ensures forall e :: ChildError(s, id, e).result != Err(WrongPhase)
  {
  }

  lemma DeafSessionBytes(s: State, event: Event, answers: Answers)
    requires Coherent(s) && ToSession(s, event)
    ensures var d := SessionBytes(s, event, answers);
            if LosesFrames(s, event) then d.result == Err(WrongPhase) && Drained(s, event, d.s)
            else d.result != Err(WrongPhase)
  {
    hide Scan, Coherent, ReadBatch, ChildError, ReadHello, TakeBatch;
    var id := event.stream;
    OwnedByLive(s, id);
    var c := Addressed(s, event);
    if Arriving(s, event).Broken? {
      var s1 := SetChild(s, id, c.(decoder := Failed));
      ReadingIsTimely(s1, id, 0, Quiet, answers, None);
    } else {
      var decoder, frames := Live(Arriving(s, event).tail), Arriving(s, event).frames;
      var t := UpdateFrameTimer(s, Incomplete(decoder), c.frameTimer, SessionFrame(id));
      var c1 := c.(decoder := decoder, frameTimer := t.slot);
      var held := SetChild(SetChild(t.s, id, c1), id, c1.(phase := Gone));
      if !Deaf(c.phase) && frames != [] {
        ReadingIsTimely(held, id, |frames|, ReadBatch(answers, 0, |frames|, None), answers, t.started);
        ReadingIsTimely(held, id, |frames|, ReadBatch(answers, 1, |frames|, None), answers, t.started);
      }
    }
  }

  lemma OthersRefuseWhole(s: State, event: Event, answers: Answers)
    requires !ToSession(s, event) && Drive(s, event, answers).result == Err(WrongPhase)
    ensures Drive(s, event, answers).s == s
  {
    hide Scan, SessionBytes, LeaseHandoff, ReadBatch;
  }

  /** A refused call leaves everything as it was, except that frames completed for
      a session that is not waiting are taken from the stream and lost.  That
      happens exactly when, before the call, the session is not waiting, its held
      bytes and the new ones complete a frame, and a timer can still be started.  */
  lemma RefusedCallLosesFrames(s: State, event: Event, answers: Answers)
    requires Coherent(s)
    ensures var d := Drive(s, event, answers);
            if LosesFrames(s, event) then d.result == Err(WrongPhase) && Drained(s, event, d.s)
            else d.result == Err(WrongPhase) ==> d.s == s
    ensures LosesFrames(s, event) ==>
              Concat(Arriving(s, event).frames) + Arriving(s, event).tail
              == Addressed(s, event).decoder.tail + event.bytes
  {
    hide Scan, Coherent, SessionBytes, BootstrapBytes, LeaseBytes, EndChild, ChildError, EndLease, LeaseHandoff,
         ReadBatch;
    if ToSession(s, event) {
      DeafSessionBytes(s, event, answers);
      if LosesFrames(s, event) {
        ScanConserves(Addressed(s, event).decoder.tail + event.bytes);
      }
    } else if Drive(s, event, answers).result == Err(WrongPhase) {
      OthersRefuseWhole(s, event, answers);
    }
  }

  /** So a refused call changes the state exactly when it loses frames and leaves
      a leftover other than the bytes held before; all of them are lost or left. */
  lemma RefusedCallChangesState(s: State, event: Event, answers: Answers)
    requires Coherent(s) && Drive(s, event, answers).result == Err(WrongPhase)
    ensures Drive(s, event, answers).s != s <==>
            LosesFrames(s, event) && Arriving(s, event).tail != Addressed(s, event).decoder.tail
  {
    hide Scan, Coherent, Drive;
    RefusedCallLosesFrames(s, event, answers);
    if LosesFrames(s, event) {
      var c := Addressed(s, event);
      OwnedByLive(s, event.stream);
      if Arriving(s, event).tail == c.decoder.tail {
        assert s.phase.lease.children[event.stream := c] == s.phase.lease.children;
      }
    }
  }

  // ---- Timers nobody is told about -------------------------------------

  /** The timer an outcome announces, in the field its flags tell. */
  function AnnouncedBy(r: Result<Outcome, SupervisorError>): set<u64> {
    if r.Err? then {}
    else if r.value.flags == 4 then {r.value.token}
    else if r.value.flags == 2 then {r.value.value0}
    else {}
  }

  /** Live after the call and not before. */
  function Started(s: State, d: Driven): set<u64> {
    d.s.timers.Keys - s.timers.Keys
  }

  /** The call starts exactly the timer its outcome announces, or, when it is
      silent, exactly one, and announces none. */
  predicate Told(s: State, d: Driven, silent: bool) {
    && Started(s, d) == (if silent then {s.nextToken} else AnnouncedBy(d.result))
    && (silent ==> AnnouncedBy(d.result) == {})
  }

  /** A core error writes a last Close, if a token is left for it, and says nothing else. */
  predicate WritesClose(s: State, error: CoreError) {
    error.closeFrame.Some? && s.nextToken as int + 1 < U64_MAX
  }

  /** Reading this batch ends without an outcome that could carry a deadline. */
  predicate BatchIsSilent(s: State, batch: Batch, applications: u64) {
    match batch
    case Failing(error) => WritesClose(s, error)
    case One(_) => applications == U64_MAX
    case _ => false
  }

  predicate OutOfTokens(s: State) {
    s.nextToken as int + 1 == U64_MAX
  }

  /** The bytes complete a frame and leave a leftover, for which a timer is started. */
  predicate StartsFrameTimer(s: State, slot: Option<u64>, arrived: Scanned) {
    && arrived.Scanned? && arrived.frames != [] && arrived.tail != []
    && slot.None? && s.nextToken < U64_MAX
  }

  predicate SessionIsSilent(s: State, event: Event, answers: Answers)
    requires ToSession(s, event)
  {
    var c := Addressed(s, event);
    && StartsFrameTimer(s, c.frameTimer, Arriving(s, event))
    && var n := |Arriving(s, event).frames|;
       match c.phase
       case AwaitM2 =>
         n == 1 && (match answers.helloM2 case Err(error) => WritesClose(s, error) case Ok(_) => OutOfTokens(s))
       case AwaitFinished =>
         if answers.finished.Some? then WritesClose(s, answers.finished.value)
         else BatchIsSilent(s, ReadBatch(answers, 1, n, None), c.applications)
       case AwaitApplication => BatchIsSilent(s, ReadBatch(answers, 0, n, None), c.applications)
       case _ => true
  }

  /** Bytes for the lease itself complete a heartbeat whose answer gets no token. */
  predicate LeaseIsSilent(s: State, event: Event, answers: Answers) {
    && s.phase.Leased? && event.flags == 0 && event.tag.StreamBytes?
    && event.stream != 0 && event.token == 0 && event.bytes != [] && event.stream == s.phase.lease.leaseStream
    && s.phase.lease.leaseWrite.None? && s.phase.lease.leaseDecoder.Live?
    && var arrived := Scan(s.phase.lease.leaseDecoder.tail + event.bytes);
       && StartsFrameTimer(s, s.phase.lease.leaseFrameTimer, arrived) && |arrived.frames| == 1
       && answers.heartbeat.Ok? && OutOfTokens(s)
  }

  /** A frame timer is started that no outcome announces: the session is not
      waiting for the peer, or its core answers with a last Close -- or, at the
      very end of a counter, a token or the count of applications has run out. */
  predicate Silent(s: State, event: Event, answers: Answers) {
    (ToSession(s, event) && SessionIsSilent(s, event, answers)) || LeaseIsSilent(s, event, answers)
  }

  lemma EndChildTells(s: State, s1: State, id: u64, reason: CloseReason, peer: Option<PeerClose>)
    requires s1.phase.Leased? && id in s1.phase.lease.children
    requires forall t :: t in s1.timers && t !in s.timers ==> s1.phase.lease.children[id].frameTimer == Some(t)
    ensures Told(s, EndChild(s1, id, reason, peer), false)
    ensures AnnouncedBy(EndChild(s1, id, reason, peer).result) == {}
  {
  }

  /** A core error after a frame timer may have been started. */
  lemma ChildErrorTells(s: State, s1: State, id: u64, error: CoreError)
    requires s1.phase.Leased? && id in s1.phase.lease.children && s1.nextToken > 0
    requires forall t :: t in s1.timers && t !in s.timers ==> s1.phase.lease.children[id].frameTimer == Some(t)
    ensures var silent := error.closeFrame.Some? && s1.nextToken < U64_MAX;
            var d := ChildError(s1, id, error);
            && AnnouncedBy(d.result) == {}
            && Started(s, d) == if silent then s1.timers.Keys - s.timers.Keys else {}
  {
    hide EndChild;
    EndChildTells(s, s1, id, error.reason, error.peerClose);
    var a := Allocate(s1);
    EndChildTells(s, a.s, id, InternalError, None);
  }

  /** A session whose frame timer `started` has just been started, if it is set. */
  predicate Holding(s: State, s1: State, id: u64, started: Option<u64>) {
    && s1.phase.Leased? && id in s1.phase.lease.children && s1.nextToken > 0 && s1.nextToken !in s.timers
    && s1.nextToken !in s1.timers
    && (started.Some? ==>
          && started == Some(s.nextToken) && s1.nextToken == s.nextToken + 1 && s.nextToken !in s.timers
          && s1.timers == s.timers[s.nextToken := SessionFrame(id)]
          && s1.phase.lease.children[id].frameTimer == started)
    && (started.None? ==> s1.nextToken == s.nextToken && forall t :: t in s1.timers ==> t in s.timers)
    && (s1.phase.lease.children[id].phaseTimer.Some? ==>
          s1.phase.lease.children[id].phaseTimer.value in s1.timers &&
              s1.phase.lease.children[id].phaseTimer != started)
  }

  lemma ReadHelloTells(s: State, s1: State, id: u64, n: nat, answers: Answers, started: Option<u64>)
    requires Holding(s, s1, id, started)
    ensures Told(s, ReadHello(s1, id, n, answers, started),
                 started.Some? && n == 1 && (match answers.helloM2
                                             case Err(error) => WritesClose(s, error)
                                             case Ok(_) => OutOfTokens(s)))
  {
    hide EndChild, ChildError;
    EndChildTells(s, s1, id, SequenceViolation, None);
    if answers.helloM2.Err? {
      ChildErrorTells(s, s1, id, answers.helloM2.error);
    }
  }

  lemma TakeBatchTells(s: State, s1: State, id: u64, batch: Batch, started: Option<u64>)
    requires Holding(s, s1, id, started)
    ensures Told(s, TakeBatch(s1, id, batch, started),
                 started.Some? && BatchIsSilent(s, batch, s1.phase.lease.children[id].applications))
  {
    hide EndChild, ChildError, HandOver;
    EndChildTells(s, s1, id, SequenceViolation, None);
    match batch {
      case Failing(error) => ChildErrorTells(s, s1, id, error);
      case One(bytes) =>
        var c := s1.phase.lease.children[id];
        if c.applications < U64_MAX {
          var s2 := SetChild(s1, id, c.(phase := AwaitRuntime, applications := c.applications + 1));
          HandOverTells(s, s2, id, bytes, started);
        }
      case _ =>
    }
  }

  lemma HandOverTells(s: State, s1: State, id: u64, bytes: seq<byte>, started: Option<u64>)
    requires Holding(s, s1, id, started)
    ensures Told(s, HandOver(s1, id, bytes, started), false)
  {
    var d := HandOver(s1, id, bytes, started);
    if started.None? && s1.nextToken < U64_MAX {
      assert s.nextToken in d.s.timers;
    }
  }

  lemma SessionBytesTells(s: State, event: Event, answers: Answers)
    requires Coherent(s) && ToSession(s, event)
    ensures Told(s, SessionBytes(s, event, answers), SessionIsSilent(s, event, answers))
  {
    hide Scan, Coherent, Told, ReadBatch, ChildError, ReadHello, TakeBatch, BatchIsSilent, WritesClose, EndChild;
    var id := event.stream;
    OwnedByLive(s, id);
    var c := Addressed(s, event);
    if Arriving(s, event).Broken? {
      BrokenTells(s, id, c);
    } else {
      var decoder, n := Live(Arriving(s, event).tail), |Arriving(s, event).frames|;
      var t := UpdateFrameTimer(s, Incomplete(decoder), c.frameTimer, SessionFrame(id));
      var c1 := c.(decoder := decoder, frameTimer := t.slot);
      var s1 := SetChild(t.s, id, c1);
      FrameTimerTells(s, id, c, decoder);
      if !t.failed && n > 0 {
        var held := SetChild(s1, id, c1.(phase := Gone));
        ReadHelloTells(s, held, id, n, answers, t.started);
        TakeBatchTells(s, held, id, ReadBatch(answers, 0, n, None), t.started);
        TakeBatchTells(s, held, id, ReadBatch(answers, 1, n, None), t.started);
        if answers.finished.Some? {
          FinishedTells(s, held, id, answers.finished.value, t.started);
        }
      }
    }
  }

  lemma BrokenTells(s: State, id: u64, c: Child)
    requires s.phase.Leased? && id in s.phase.lease.children && c == s.phase.lease.children[id]
    ensures Told(s, ChildError(SetChild(s, id, c.(decoder := Failed)), id, CoreError(Malformed, None, None)), false)
  {
    hide EndChild;
    EndChildTells(s, SetChild(s, id, c.(decoder := Failed)), id, Malformed, None);
  }

  lemma FinishedTells(s: State, s1: State, id: u64, error: CoreError, started: Option<u64>)
    requires Holding(s, s1, id, started)
    ensures Told(s, ChildError(s1, id, error), started.Some? && WritesClose(s, error))
  {
    hide EndChild, ChildError;
    ChildErrorTells(s, s1, id, error);
  }

  /** What updating the frame timer alone does. */
  lemma FrameTimerTells(s: State, id: u64, c: Child, decoder: DecoderState)
    requires Coherent(s) && s.phase.Leased? && id in s.phase.lease.children && c == s.phase.lease.children[id]
    requires decoder.Live?
    ensures var t := UpdateFrameTimer(s, Incomplete(decoder), c.frameTimer, SessionFrame(id));
            var c1 := c.(decoder := decoder, frameTimer := t.slot);
            var s1 := SetChild(t.s, id, c1);
            && Told(s, Driven(s1, Ok(FrameDeadline(Plain(NeedInput, id), t.started))), false)
            && Told(s, Driven(s1, Err(WrongPhase)), t.started.Some?)
            && (t.failed ==> Told(s, Driven(s1, Err(Internal)), false))
            && (t.started.Some? <==> decoder.tail != [] && c.frameTimer.None? && s.nextToken < U64_MAX)
            && (!t.failed ==> Holding(s, SetChild(s1, id, c1.(phase := Gone)), id, t.started))
  {
    hide Coherent, Slots, LiveTimers;
    OwnedByLive(s, id);
    TokensAreSmall(s);
  }

  lemma TokensAreSmall(s: State)
    requires Coherent(s)
    ensures forall t :: t in s.timers ==> t < s.nextToken
  {
  }

  lemma LeaseBytesTells(s: State, event: Event, answers: Answers)
    requires Coherent(s) && s.phase.Leased? && event.stream == s.phase.lease.leaseStream
    requires event.flags == 0 && event.tag.StreamBytes? && event.stream != 0 && event.token == 0 && event.bytes != []
    ensures Told(s, LeaseBytes(s, event, answers), LeaseIsSilent(s, event, answers))
  {
    hide Scan, LiveTimers, LeaseHandoff;
    TokensAreSmall(s);
  }

  lemma EarlyTells(s: State, event: Event, answers: Answers)
    requires Coherent(s) && !s.phase.Leased?
    ensures Told(s, Drive(s, event, answers), false)
  {
    hide Coherent, Told, EndLease, Connected, Committed, Bytes, ClosedStream, Fired;
    NothingTells(s);
    ConnectedTells(s, event, answers);
    EarlyCommittedTells(s, event);
    EarlyBytesTells(s, event, answers);
    EarlyEndTells(s, event, answers);
  }

  lemma ConnectedTells(s: State, event: Event, answers: Answers)
    requires Coherent(s)
    ensures Told(s, Connected(s, event, answers), false)
  {
    hide LiveTimers, LeaseHandoff;
  }

  lemma EarlyCommittedTells(s: State, event: Event)
    requires Coherent(s) && !s.phase.Leased?
    ensures Told(s, Committed(s, event), false)
  {
    hide Slots;
  }

  lemma EarlyBytesTells(s: State, event: Event, answers: Answers)
    requires Coherent(s) && !s.phase.Leased?
    ensures Told(s, Bytes(s, event, answers), false)
  {
    hide Scan, LiveTimers, LeaseHandoff;
    TokensAreSmall(s);
  }

  lemma EarlyEndTells(s: State, event: Event, answers: Answers)
    requires Coherent(s) && !s.phase.Leased?
    ensures Told(s, ClosedStream(s, event, answers), false)
    ensures Told(s, Fired(s, event), false)
    ensures Told(s, Accepted(s, event, answers), false) && Told(s, Responded(s, event, answers), false)
  {
    hide Coherent, LeaseHandoff;
  }

  lemma CommittedTells(s: State, event: Event)
    requires Coherent(s) && s.phase.Leased?
    ensures Told(s, Committed(s, event), false)
  {
    hide Coherent, EndChild, ReplacePhaseTimer;
    var id := event.stream;
    if id in s.phase.lease.children {
      var c := s.phase.lease.children[id];
      ReplaceTells(s, SetChild(s, id, c.(phase := AwaitApplication)), id, SessionIdle(id));
      if c.phase.TerminalPending? {
        EndOfNobody(s, id, c.phase.terminal);
      }
    }
  }

  lemma EndOfNobody(s: State, id: u64, t: TerminalInfo)
    ensures var r := EndChild(s.(phase := Terminated(InternalTerminal())), id, t.reason, t.peerClose).result;
            r.Ok? && AnnouncedBy(r) == {}
  {
  }

  /** Replacing a phase timer starts one, if there is a token. */
  lemma ReplaceTells(s: State, s1: State, id: u64, action: TimerAction)
    requires Coherent(s) && s.phase.Leased? && id in s.phase.lease.children
    requires s1 == SetChild(s, id, s.phase.lease.children[id].(phase := AwaitApplication))
    ensures var a := ReplacePhaseTimer(s1, id, action);
            && a.s.timers.Keys - s.timers.Keys == (if a.token.Some? then {a.token.value} else {})
  {
    hide Coherent;
    OwnedByLive(s, id);
    var a := ReplacePhaseTimer(s1, id, action);
    if a.token.Some? {
      assert a.token.value == s.nextToken && s.nextToken in a.s.timers;
    }
  }

  lemma FiredTells(s: State, event: Event)
    requires Coherent(s) && s.phase.Leased?
    ensures Told(s, Fired(s, event), false)
  {
    hide Coherent, LeaseHandoff;
    TokensAreSmall(s);
  }

  lemma AcceptedTells(s: State, event: Event, answers: Answers)
    requires Coherent(s) && s.phase.Leased?
    ensures Told(s, Accepted(s, event, answers), false)
  {
    hide Coherent;
    TokensAreSmall(s);
  }

  lemma RespondedTells(s: State, event: Event, answers: Answers)
    requires Coherent(s) && s.phase.Leased?
    ensures Told(s, Responded(s, event, answers), false)
  {
    hide Coherent;
  }

  lemma ClosedStreamTells(s: State, event: Event, answers: Answers)
    requires Coherent(s) && s.phase.Leased?
    ensures Told(s, ClosedStream(s, event, answers), false)
  {
    hide Coherent, LeaseHandoff, ChildEnd, ChildError, EndChild;
    var id := event.stream;
    if id in s.phase.lease.children {
      var error := ChildEnd(s.phase.lease.children[id], answers);
      if error.Some? {
        EndErrorHasNoClose(s.phase.lease.children[id], answers);
        PlainErrorTells(s, id, error.value);
      }
      EndChildTells(s, s, id, if event.tag.StreamCloseNormal? then Normal else PeerClosed, None);
    }
  }

  lemma EndErrorHasNoClose(c: Child, answers: Answers)
    ensures ChildEnd(c, answers).Some? ==> ChildEnd(c, answers).value.closeFrame.None?
  {
  }

  lemma PlainErrorTells(s: State, id: u64, error: CoreError)
    requires s.phase.Leased? && id in s.phase.lease.children && error.closeFrame.None?
    ensures Told(s, ChildError(s, id, error), false)
  {
    hide EndChild;
    EndChildTells(s, s, id, error.reason, error.peerClose);
  }

  /** Every call starts exactly the timer it announces, except the silent ones. */
  lemma DriveTells(s: State, event: Event, answers: Answers)
    requires Coherent(s)
    ensures Told(s, Drive(s, event, answers), Silent(s, event, answers))
  {
    hide Coherent, Told, SessionBytes, LeaseBytes, Committed, Fired, Accepted, Responded, ClosedStream, SessionIsSilent;
    hide Scan, LeaseHandoff;
    if !s.phase.Leased? {
      EarlyTells(s, event, answers);
    } else {
      NothingTells(s);
      LeaseStreamIsNoChild(s);
      CommittedTells(s, event);
      FiredTells(s, event);
      AcceptedTells(s, event, answers);
      RespondedTells(s, event, answers);
      ClosedStreamTells(s, event, answers);
      if ToSession(s, event) {
        SessionBytesTells(s, event, answers);
      } else if event.tag.StreamBytes? && event.flags == 0 && event.stream == s.phase.lease.leaseStream
                && event.stream != 0 && event.token == 0 && event.bytes != [] {
        LeaseBytesTells(s, event, answers);
      }
    }
  }

  lemma NothingTells(s: State)
    ensures forall e :: Told(s, Driven(s, Err(e)), false)
    ensures forall reason, peer :: Told(s, EndLease(s, reason, peer), false)
    ensures forall info :: Told(s, Driven(s, Ok(EndOutcome(LeaseTerminal, 0, info))), false)
  {
  }

  // ---- Over whole runs -------------------------------------------------

  /** The tokens outcomes announced as timers along a run. */
  function Announced(s: State, steps: seq<Step>): set<u64>
    decreases |steps|
  {
    if steps == [] then {}
    else
      var d := Drive(s, steps[0].event, steps[0].answers);
      AnnouncedBy(d.result) + Announced(d.s, steps[1..])
  }

  /** The tokens of the frame timers that silent calls started. */
  function StartedSilently(s: State, steps: seq<Step>): set<u64>
    decreases |steps|
  {
    if steps == [] then {}
    else
      var own: set<u64> := if Silent(s, steps[0].event, steps[0].answers) then {s.nextToken} else {};
      own + StartedSilently(Drive(s, steps[0].event, steps[0].answers).s, steps[1..])
  }

  /** The tokens one call speaks of are new, and used up by it. */
  lemma OwnTokens(s: State, event: Event, answers: Answers)
    requires Coherent(s)
    ensures var d := Drive(s, event, answers);
            && Coherent(d.s) && s.nextToken <= d.s.nextToken
            && (forall t :: t in AnnouncedBy(d.result) ==> s.nextToken <= t < d.s.nextToken)
            && (forall t :: t in Started(s, d) ==> s.nextToken <= t < d.s.nextToken)
            && (Silent(s, event, answers) ==> s.nextToken < d.s.nextToken)
            && Told(s, d, Silent(s, event, answers))
  {
    hide Coherent, Drive, Silent, AnnouncedBy;
    var d := Drive(s, event, answers);
    DriveKeeps(s, event, answers);
    DriveTells(s, event, answers);
    TokensGrow(s, event, answers);
    TokensAreSmall(d.s);
    forall t | t in Started(s, d) ensures s.nextToken <= t < d.s.nextToken {
      assert t in d.s.timers && t !in s.timers;
    }
    if Silent(s, event, answers) {
      assert s.nextToken in Started(s, d);
    }
  }

  /** Later calls speak of later tokens only. */
  lemma {:induction false} LaterTokens(s: State, steps: seq<Step>)
    requires Coherent(s)
    ensures forall t :: t in Announced(s, steps) ==> t >= s.nextToken
    ensures forall t :: t in StartedSilently(s, steps) ==> t >= s.nextToken
    decreases |steps|
  {
    hide Coherent, Drive, Silent, AnnouncedBy, Told;
    if steps != [] {
      OwnTokens(s, steps[0].event, steps[0].answers);
      LaterTokens(Drive(s, steps[0].event, steps[0].answers).s, steps[1..]);
    }
  }

  /** A timer that becomes live has a token from then on. */
  lemma {:induction false} LiveIsLater(s: State, steps: seq<Step>, t: u64)
    requires Coherent(s) && t in Drives(s, steps).timers && t !in s.timers
    ensures t >= s.nextToken
    decreases |steps|
  {
    hide Coherent, Drive, Silent, AnnouncedBy, Told;
    if steps != [] {
      var d := Drive(s, steps[0].event, steps[0].answers);
      OwnTokens(s, steps[0].event, steps[0].answers);
      if t in d.s.timers {
        assert t in Started(s, d);
      } else {
        LiveIsLater(d.s, steps[1..], t);
      }
    }
  }

  /** In every run: a timer that is still live was never announced exactly when
      a silent call started it. */
  lemma {:induction false} LiveTimerIsUnannouncedExactly(s: State, steps: seq<Step>, t: u64)
    requires Coherent(s) && t in Drives(s, steps).timers && t !in s.timers
    ensures t !in Announced(s, steps) <==> t in StartedSilently(s, steps)
    decreases |steps|
  {
    hide Coherent, Drive, Silent, AnnouncedBy;
    if steps != [] {
      var d := Drive(s, steps[0].event, steps[0].answers);
      OwnTokens(s, steps[0].event, steps[0].answers);
      LaterTokens(d.s, steps[1..]);
      if t in d.s.timers {
        assert t in Started(s, d);
      } else {
        LiveTimerIsUnannouncedExactly(d.s, steps[1..], t);
        LiveIsLater(d.s, steps[1..], t);
      }
    }
  }

  // ---- The tick that cannot be replaced --------------------------------

  /** The lease still names its tick timer, which is no longer live. */
  predicate TickSlotDead(s: State) {
    s.phase.Leased? && s.phase.lease.leaseTickTimer.Some? && s.phase.lease.leaseTickTimer.value !in s.timers
  }

  /** The lease's tick fires when no token is left for the next one. */
  predicate TickLapses(s: State, event: Event) {
    Ticks(s, event) && s.nextToken == U64_MAX
  }

  lemma ApartKeepsTick(s: State, id: u64, d: Driven)
    requires Coherent(s) && Coherent(d.s) && SessionOutcome(s, id, d)
    ensures d.s.phase.Leased? && (TickSlotDead(d.s) <==> TickSlotDead(s))
  {
    hide LiveTimers;
    var t := s.phase.lease.leaseTickTimer.value;
    assert t in s.timers <==> t in OtherTimers(s, id);
    assert t in d.s.timers <==> t in OtherTimers(d.s, id);
  }

  lemma FreshTickIsLive(s: State, event: Event, answers: Answers)
    requires Coherent(s) && !s.phase.Leased?
    ensures !TickSlotDead(Drive(s, event, answers).s)
  {
    hide Scan, LiveTimers;
  }

  lemma FiredKeepsTick(s: State, event: Event)
    requires Coherent(s) && s.phase.Leased? && Coherent(Fired(s, event).s)
    requires event.tag.TimerFired? && event.flags == 0
    requires event.token in s.timers ==> !IsSession(s.timers[event.token])
    ensures var s' := Fired(s, event).s;
            || s'.phase.Terminated?
            || (s'.phase.Leased? && (TickSlotDead(s') <==> TickSlotDead(s) || TickLapses(s, event)))
  {
    hide LeaseHandoff;
    if event.token in s.timers {
      OwnerIsAlive(s, event.token);
    }
  }

  lemma LeaseKeepsTick(s: State, event: Event, answers: Answers)
    requires Coherent(s) && s.phase.Leased? && event.stream == s.phase.lease.leaseStream && !event.tag.TimerFired?
    ensures var s' := Drive(s, event, answers).s;
            s'.phase.Terminated? || (s'.phase.Leased? && (TickSlotDead(s') <==> TickSlotDead(s)))
  {
    hide Scan, LeaseHandoff;
  }

  lemma StepKeepsTick(s: State, event: Event, answers: Answers)
    requires Coherent(s) && s.phase.Leased?
    ensures var s' := Drive(s, event, answers).s;
            || s'.phase.Terminated?
            || (s'.phase.Leased? && (TickSlotDead(s') <==> TickSlotDead(s) || TickLapses(s, event)))
  {
    hide Coherent, Drive, TickSlotDead, SessionOutcome, EndedTruly;
    var d := Drive(s, event, answers);
    DriveKeeps(s, event, answers);
    if event.tag.TimerFired? && event.token in s.timers && IsSession(s.timers[event.token]) {
      SessionTimerOwned(s, event.token);
      SessionsAreIsolated(s, event, answers, s.timers[event.token].stream);
      ApartKeepsTick(s, s.timers[event.token].stream, d);
    } else if event.tag.TimerFired? {
      FiringIs(s, event, answers);
      if event.flags == 0 {
        FiredKeepsTick(s, event);
      }
    } else if event.stream == s.phase.lease.leaseStream {
      LeaseKeepsTick(s, event, answers);
    } else if Concerns(s, event, event.stream) {
      SessionsAreIsolated(s, event, answers, event.stream);
      ApartKeepsTick(s, event.stream, d);
    } else {
      OtherCounts(s, event, answers);
    }
  }

  lemma FiringIs(s: State, event: Event, answers: Answers)
    requires s.phase.Leased? && event.tag.TimerFired?
    ensures Drive(s, event, answers) == if event.flags == 0 then Fired(s, event) else Driven(s, Err(InvalidArgument))
  {
    hide Fired;
  }

  /** Some tick of the run lapsed. */
  predicate Lapsed(s: State, steps: seq<Step>)
    decreases |steps|
  {
    steps != [] && (TickLapses(s, steps[0].event) || Lapsed(Drive(s, steps[0].event, steps[0].answers).s, steps[1..]))
  }

  /** In every run: the tick slot of a lease names a live timer exactly unless a
      tick fired after the last token had been given out. */
  lemma {:induction false} TickSlotDiesExactly(s: State, steps: seq<Step>)
    requires Coherent(s) && Drives(s, steps).phase.Leased?
    ensures TickSlotDead(Drives(s, steps)) <==> TickSlotDead(s) || Lapsed(s, steps)
    decreases |steps|
  {
    hide Coherent, Drive, Ticks;
    if steps != [] {
      var event, answers := steps[0].event, steps[0].answers;
      var d := Drive(s, event, answers);
      DriveKeeps(s, event, answers);
      if d.s.phase.Terminated? {
        TerminatedStays(d.s, steps[1..]);
      } else if s.phase.Leased? {
        StepKeepsTick(s, event, answers);
      } else {
        FreshTickIsLive(s, event, answers);
        NoTickYet(s, event);
      }
      TickSlotDiesExactly(d.s, steps[1..]);
    }
  }

  lemma NoTickYet(s: State, event: Event)
    requires !s.phase.Leased?
    ensures !Ticks(s, event)
  {
  }

  lemma {:induction false} TerminatedStays(s: State, steps: seq<Step>)
    requires s.phase.Terminated?
    ensures Drives(s, steps) == s
    decreases |steps|
  {
    if steps != [] {
      TerminatedStays(s, steps[1..]);
    }
  }

  // ---- One run with both gaps ------------------------------------------

  /** The session's steps up to the application it hands out. */
  function UntilApplication(k: nat): seq<Step>
    requires k <= 5
    decreases 5 - k
  {
    if k == 5 then [] else [SessionStep(k)] + UntilApplication(k + 1)
  }

  lemma {:induction false} ReachesRuntime(k: nat, rest: seq<Step>)
    requires k <= 5
    ensures Drives(Stage(k), UntilApplication(k) + rest) == Drives(Stage(5), rest)
    decreases 5 - k
  {
    hide Drive, FRAME, FRAMES;
    if k < 5 {
      OpeningAdvances();
      HelloAdvances();
      FinishedAdvances();
      ApplicationAdvances();
      var later := UntilApplication(k + 1) + rest;
      assert UntilApplication(k) + rest == [SessionStep(k)] + later;
      DrivesStep(Stage(k), map[], SessionStep(k), later);
      ReachesRuntime(k + 1, rest);
    } else {
      assert UntilApplication(5) + rest == rest;
    }
  }

  /** A session that has handed out its first application. */
  function Waiting(): seq<Step> {
    Beginning() + UntilApplication(0)
  }

  lemma WaitingRuns(rest: seq<Step>)
    ensures Drives(NewState(), Waiting() + rest) == Drives(Stage(5), rest)
  {
    hide Drives, Beginning;
    BeginningRuns(UntilApplication(0) + rest);
    ReachesRuntime(0, rest);
    Assoc(Beginning(), UntilApplication(0), rest);
  }

  /** One whole envelope and the first byte of the next. */
  const FRAME_AND_MORE: seq<byte> := [0, 1, 9, 0]

  function EarlyBytes(): Step {
    On(StreamBytes, 2, 0, FRAME_AND_MORE)
  }

  lemma EarlyBytesScan()
    ensures Scan([] + FRAME_AND_MORE) == Scanned([FRAME], [0])
  {
    assert [] + FRAME_AND_MORE == FRAME + [0];
    assert OneOuter(FRAME) == Ok([9]);
    ScanEnvelope(FRAME, [0]);
    assert Scan([0]) == Scanned([], [0]);
  }

  lemma {:induction false} SilentLater(s: State, steps: seq<Step>, last: Step)
    requires Silent(Drives(s, steps), last.event, last.answers)
    ensures Drives(s, steps).nextToken in StartedSilently(s, steps + [last])
    ensures Drives(s, steps + [last]) == Drive(Drives(s, steps), last.event, last.answers).s
    decreases |steps|
  {
    hide Drive, Silent;
    if steps == [] {
      assert steps + [last] == [last];
    } else {
      assert (steps + [last])[1..] == steps[1..] + [last];
      SilentLater(Drive(s, steps[0].event, steps[0].answers).s, steps[1..], last);
    }
  }

  lemma EarlyBytesAreLost()
    ensures var s, e := Stage(5), EarlyBytes().event;
            && Coherent(s)
            && LosesFrames(s, e) && Arriving(s, e) == Scanned([FRAME], [0])
            && Silent(s, e, EarlyBytes().answers)
  {
    hide Scan, Drive, Drives;
    EarlyBytesScan();
    NewIsCoherent();
    DrivesKeep(NewState(), Waiting() + []);
    WaitingRuns([]);
    DrivesNothing(Stage(5));
  }

  lemma DrivesNothing(s: State)
    ensures Drives(s, []) == s
  {
  }

  /** A reachable session that has an application in hand gets one whole envelope
      and a byte more: the call is refused, the envelope is gone, and a frame
      timer runs that nobody was told of -- firing it would end the session. */
  lemma EnvelopeIsLostUnannounced()
    ensures var s := Drives(NewState(), Waiting());
            var d := Drive(s, EarlyBytes().event, EarlyBytes().answers);
            && s.phase.Leased? && 2 in s.phase.lease.children && s.phase.lease.children[2].phase.AwaitRuntime?
            && s.phase.lease.children[2].decoder == Live([]) && s.phase.lease.children[2].frameTimer.None?
            && d.result == Err(WrongPhase)
            && d.s.phase.Leased? && 2 in d.s.phase.lease.children
            && d.s.phase.lease.children[2].decoder == Live([0])
            && 9 in d.s.timers && d.s.timers[9] == SessionFrame(2)
            && 9 !in Announced(NewState(), Waiting() + [EarlyBytes()])
            && 9 in TerminalTimerTokens(d.s)
  {
    hide Scan, Drive, Drives, Announced, StartedSilently, Silent, LosesFrames;
    assert Waiting() + [] == Waiting();
    WaitingRuns([]);
    DrivesNothing(Stage(5));
    EarlyBytesAreLost();
    RefusedCallLosesFrames(Stage(5), EarlyBytes().event, EarlyBytes().answers);
    SilentLater(NewState(), Waiting(), EarlyBytes());
    NewIsCoherent();
    LiveTimerIsUnannouncedExactly(NewState(), Waiting() + [EarlyBytes()], 9);
  }
}
