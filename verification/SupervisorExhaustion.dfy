/** The last token is within reach: sessions that open and end use the counter up,
    and what then goes wrong does. */
module SupervisorExhaustion {
  import opened Common
  import opened Terms
  import opened Framing
  import opened Supervisor
  import opened SupervisorTimers
  import opened SupervisorRuns
  import opened SupervisorGaps

  // ---- Using the tokens up ---------------------------------------------

  /** A stream is accepted and ends at once, which costs two tokens. */
  function Rounds(id: u64, k: nat): seq<Step>
    decreases k
  {
    if k == 0 then []
    else [On(SessionAccepted, id, 0, []), On(StreamEof, id, 0, [])] + Rounds(id, k - 1)
  }

  predicate Spendable(s: State, id: u64, k: nat) {
    && s.phase.Leased? && id != 0 && id != s.phase.lease.leaseStream && id !in s.phase.lease.children
    && s.nextToken > 0 && s.nextToken as int + 2 * k <= U64_MAX as int
    && (forall t :: t in s.timers ==> t < s.nextToken)
  }

  function Spent(s: State, k: nat): State
    requires s.nextToken as int + 2 * k <= U64_MAX as int
  {
    s.(nextToken := (s.nextToken as int + 2 * k) as u64)
  }

  lemma RoundSpends(s: State, id: u64)
    requires Spendable(s, id, 1)
    ensures var accept, eof := On(SessionAccepted, id, 0, []), On(StreamEof, id, 0, []);
            Drive(Drive(s, accept.event, accept.answers).s, eof.event, eof.answers).s == Spent(s, 1)
  {
    hide Scan;
    var accept := On(SessionAccepted, id, 0, []);
    var s1 := Drive(s, accept.event, accept.answers).s;
    var child := Child(M1Pending(s.nextToken), Live([]), Some(s.nextToken + 1), None, 0);
    assert s1 == SetChild(s.(nextToken := s.nextToken + 2, timers := s.timers[s.nextToken + 1 := SessionPhase(id)]),
                          id, child);
    assert s.phase.lease.children[id := child] - {id} == s.phase.lease.children;
    assert s.timers[s.nextToken + 1 := SessionPhase(id)] - {s.nextToken + 1} == s.timers;
  }

  lemma {:induction false} RoundsSpend(s: State, id: u64, k: nat, rest: seq<Step>)
    requires Spendable(s, id, k)
    ensures Drives(s, Rounds(id, k) + rest) == Drives(Spent(s, k), rest)
    decreases k
  {
    hide Drive;
    if k == 0 {
      assert [] + rest == rest;
    } else {
      var accept, eof := On(SessionAccepted, id, 0, []), On(StreamEof, id, 0, []);
      var later := Rounds(id, k - 1) + rest;
      assert Rounds(id, k) + rest == [accept] + ([eof] + later);
      DrivesStep(s, map[], accept, [eof] + later);
      DrivesStep(Drive(s, accept.event, accept.answers).s, map[], eof, later);
      RoundSpends(s, id);
      RoundsSpend(Spent(s, 1), id, k - 1, rest);
    }
  }

  lemma {:induction false} Appended(s: State, log: map<u64, nat>, cut: map<u64, nat>, steps: seq<Step>, last: Step)
    ensures var t, all := Drives(s, steps), steps + [last];
            && Drives(s, all) == Drive(t, last.event, last.answers).s
            && LogAfter(s, log, all)
               == Observed(LogAfter(s, log, steps), last.event, Drive(t, last.event, last.answers))
            && CutAfter(s, cut, all) == CutOffs(CutAfter(s, cut, steps), t, last.event, last.answers)
    decreases |steps|
  {
    hide Drive, Observed, CutOffs;
    if steps == [] {
      assert steps + [last] == [last] && [last][1..] == [];
    } else {
      var event, answers := steps[0].event, steps[0].answers;
      assert (steps + [last])[1..] == steps[1..] + [last];
      Appended(Drive(s, event, answers).s, Observed(log, event, Drive(s, event, answers)),
               CutOffs(cut, s, event, answers), steps[1..], last);
    }
  }

  // ---- The tick --------------------------------------------------------

  const ROUNDS_AT_ONCE: nat := (U64_MAX as int - 5) / 2

  /** A lease whose counter is at its end. */
  function Exhausting(): seq<Step> {
    Beginning() + Rounds(2, ROUNDS_AT_ONCE)
  }

  lemma Exhausted()
    ensures Drives(NewState(), Exhausting()) == LeaseBegun().(nextToken := U64_MAX)
  {
    hide Drive, Drives, LogAfter, Beginning, Rounds;
    BeginningRuns(Rounds(2, ROUNDS_AT_ONCE));
    assert Rounds(2, ROUNDS_AT_ONCE) + [] == Rounds(2, ROUNDS_AT_ONCE);
    RoundsSpend(LeaseBegun(), 2, ROUNDS_AT_ONCE, []);
    DrivesNothing(LeaseBegun().(nextToken := U64_MAX));
  }

  /** A reachable run in which the tick slot is left naming a dead timer: the call
      fails, and no timer is live any more. */
  lemma TickSlotDies()
    ensures var s := Drives(NewState(), Exhausting());
            var d := Drive(s, Fire(4), LimitAnswers());
            && TickLapses(s, Fire(4)) && d.result == Err(Internal)
            && d.s == Drives(NewState(), Exhausting() + [Step(Fire(4), LimitAnswers())])
            && TickSlotDead(d.s) && d.s.timers == map[]
  {
    hide Drives, LogAfter, CutAfter, Beginning, Rounds;
    Exhausted();
    Appended(NewState(), map[], map[], Exhausting(), Step(Fire(4), LimitAnswers()));
  }

  // ---- The application that is cut off ---------------------------------

  /** The steps up to the session that waits for the peer's Finished. */
  function UntilFinished(k: nat): seq<Step>
    requires k <= 4
    decreases 4 - k
  {
    if k == 4 then [] else [SessionStep(k)] + UntilFinished(k + 1)
  }

  lemma {:induction false} ReachesFinished(k: nat, rest: seq<Step>)
    requires k <= 4
    ensures Drives(Stage(k), UntilFinished(k) + rest) == Drives(Stage(4), rest)
    decreases 4 - k
  {
    hide Drive, FRAME, FRAMES;
    if k < 4 {
      OpeningAdvances();
      HelloAdvances();
      FinishedAdvances();
      var later := UntilFinished(k + 1) + rest;
      assert UntilFinished(k) + rest == [SessionStep(k)] + later;
      DrivesStep(Stage(k), map[], SessionStep(k), later);
      ReachesFinished(k + 1, rest);
    } else {
      assert UntilFinished(4) + rest == rest;
    }
  }

  /** One heartbeat costs one token. */
  function Heartbeat(): seq<Step> {
    [On(StreamBytes, 1, 0, FRAME), On(FullWriteCommitted, 1, 8, [])]
  }

  lemma HeartbeatRuns(rest: seq<Step>)
    ensures Drives(Stage(4), Heartbeat() + rest) == Drives(Stage(4).(nextToken := 9), rest)
  {
    hide Drives, Scan, FRAME;
    FramesPush();
    var beat := Heartbeat();
    var written := Stage(4).(nextToken := 9, phase := Leased(Stage(4).phase.lease.(leaseWrite := Some(8))));
    assert Drive(Stage(4), beat[0].event, beat[0].answers).s == written;
    assert Drive(written, beat[1].event, beat[1].answers).s == Stage(4).(nextToken := 9);
    assert beat + rest == [beat[0]] + ([beat[1]] + rest);
    DrivesStep(Stage(4), map[], beat[0], [beat[1]] + rest);
    DrivesStep(written, map[], beat[1], rest);
  }

  const ROUNDS_BESIDE: nat := (U64_MAX as int - 9) / 2

  /** A session that waits for the peer while the counter is at its end. */
  function ExhaustingBeside(): seq<Step> {
    Beginning() + (UntilFinished(0) + (Heartbeat() + Rounds(3, ROUNDS_BESIDE)))
  }

  lemma ExhaustedBeside()
    ensures Drives(NewState(), ExhaustingBeside()) == Stage(4).(nextToken := U64_MAX)
  {
    hide Drive, Drives, LogAfter, Beginning, Rounds, UntilFinished, Heartbeat;
    var rounds := Rounds(3, ROUNDS_BESIDE);
    BeginningRuns(UntilFinished(0) + (Heartbeat() + rounds));
    ReachesFinished(0, Heartbeat() + rounds);
    HeartbeatRuns(rounds);
    assert rounds + [] == rounds;
    RoundsSpend(Stage(4).(nextToken := 9), 3, ROUNDS_BESIDE, []);
    DrivesNothing(Stage(4).(nextToken := U64_MAX));
  }

  function LastBytes(): Step {
    On(StreamBytes, 2, 0, FRAMES)
  }

  function LastEof(): Step {
    On(StreamEof, 2, 0, [])
  }

  /** The session after its application was read but could not be handed out. */
  function CutShort(): Child {
    Child(AwaitRuntime, Live([]), None, None, 1)
  }

  lemma TakenButNotHandedOut()
    ensures var d := TakeBatch(Parked().(nextToken := U64_MAX), 2, One([7]), None);
            && d.result == Err(Internal)
            && d.s.phase.Leased? && d.s.phase.lease == Stage(4).phase.lease.(children := map[2 := CutShort()])
  {
    var d := TakeBatch(Parked().(nextToken := U64_MAX), 2, One([7]), None);
    assert d.s.phase.lease.children == map[2 := CutShort()];
  }

  lemma LastBytesAreCut()
    ensures var s := Stage(4).(nextToken := U64_MAX);
            var d := Drive(s, LastBytes().event, LastBytes().answers);
            && CutOff(s, LastBytes().event, LastBytes().answers) && d.result == Err(Internal)
            && d.s.phase.Leased? && d.s.phase.lease == Stage(4).phase.lease.(children := map[2 := CutShort()])
  {
    hide Scan, FRAME, FRAMES, LeaseBytes, ChildError, ReadHello, EndChild, ReadBatch, TakeBatch;
    FramesScan();
    FramesPush();
    BatchOfOne();
    TakenButNotHandedOut();
    var s := Stage(4).(nextToken := U64_MAX);
    var c := s.phase.lease.children[2];
    assert [] + FRAMES == FRAMES;
    assert SetChild(SetChild(s, 2, c), 2, c.(phase := Gone)).phase.lease.children == Parked().phase.lease.children;
    assert SetChild(SetChild(s, 2, c), 2, c.(phase := Gone)) == Parked().(nextToken := U64_MAX);
  }

  lemma LastEofTells(s: State)
    requires s.phase.Leased? && s.phase.lease == Stage(4).phase.lease.(children := map[2 := CutShort()])
    ensures Drive(s, LastEof().event, LastEof().answers).result
            == Ok(EndOutcome(SessionTerminal, 2, TerminalInfo(PeerClosed, HandoffPossibleOrConfirmed, None)))
  {
    hide Scan;
  }

  /** A reachable run in which an application is read at the last token and never
      handed out, and the end of its session reports a hand-off all the same. */
  lemma CutOffIsReported()
    ensures var steps := ExhaustingBeside() + [LastBytes()];
            var s, log := Drives(NewState(), steps), LogAfter(NewState(), map[], steps);
            var cut := CutAfter(NewState(), map[], steps);
            && 2 in log && log[2] == 0 && 2 in cut && cut[2] == 1
            && Drive(s, LastEof().event, LastEof().answers).result
               == Ok(EndOutcome(SessionTerminal, 2, TerminalInfo(PeerClosed, HandoffPossibleOrConfirmed, None)))
  {
    hide Drive, Drives, LogAfter, CutAfter, CutOff, ExhaustingBeside, FRAMES, FRAME;
    var before := ExhaustingBeside();
    ExhaustedBeside();
    NewIsCoherent();
    NewIsLogged();
    RunLogged(NewState(), map[], map[], before);
    Appended(NewState(), map[], map[], before, LastBytes());
    LastBytesAreCut();
    LastEofTells(Drives(NewState(), before + [LastBytes()]));
  }
}
