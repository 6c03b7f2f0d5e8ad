/** What the end of a lease says: whether anything can have been handed out. */
module SupervisorEnds {
  import opened Common
  import opened Terms
  import opened Framing
  import opened Supervisor
  import opened SupervisorTimers
  import opened SupervisorRuns
  import opened SupervisorGaps
  import opened SupervisorExhaustion

  // ---- One call --------------------------------------------------------

  /** Some session still known has had an application. */
  ghost predicate HandsOut(phase: Phase) {
    phase.Leased? && exists id :: id in phase.lease.children && phase.lease.children[id].applications > 0
  }

  /** If this is the end of the lease, it admits a hand-off exactly if `may` says so. */
  predicate Admits(may: bool, d: Driven) {
    d.result.Ok? && d.result.value.kind.LeaseTerminal? ==> (d.result.value.handoff.HandoffPossibleOrConfirmed? <==> may)
  }

  lemma EndLeaseAdmits(s: State, reason: CloseReason, peer: Option<PeerClose>)
    requires !s.phase.Terminated?
    ensures Admits(HandsOut(s.phase), EndLease(s, reason, peer))
  {
  }

  lemma PlaceholderDenies(s: State, reason: CloseReason, peer: Option<PeerClose>)
    ensures Admits(false, EndLease(s.(phase := Terminated(InternalTerminal())), reason, peer))
  {
  }

  lemma SameChildren(s: State, s': State)
    requires s.phase.Leased? && s'.phase.Leased? && s'.phase.lease.children == s.phase.lease.children
    ensures HandsOut(s.phase) <==> HandsOut(s'.phase)
  {
  }

  lemma NoEndAdmits(may: bool, d: Driven)
    requires d.result.Ok? ==> !d.result.value.kind.LeaseTerminal?
    ensures Admits(may, d)
  {
  }

  lemma EarlyAdmits(s: State, event: Event, answers: Answers)
    requires Coherent(s) && !s.phase.Leased? && !s.phase.Terminated?
    ensures Admits(false, Drive(s, event, answers))
  {
    hide Scan, LiveTimers;
  }

  lemma LeaseBytesAdmits(s: State, event: Event, answers: Answers)
    requires Coherent(s) && s.phase.Leased?
    ensures Admits(HandsOut(s.phase), LeaseBytes(s, event, answers))
  {
    hide Scan, LiveTimers, Slots, EndLease, HandsOut;
    forall s1: State, reason, peer | s1.phase.Leased? && s1.phase.lease.children == s.phase.lease.children
      ensures Admits(HandsOut(s.phase), EndLease(s1, reason, peer))
    {
      EndLeaseAdmits(s1, reason, peer);
      SameChildren(s, s1);
    }
  }

  lemma FiredAdmits(s: State, event: Event)
    requires Coherent(s) && s.phase.Leased?
    requires event.token in s.timers ==> !IsSession(s.timers[event.token])
    ensures Admits(HandsOut(s.phase), Fired(s, event))
  {
    hide LiveTimers, Slots, EndLease, HandsOut;
    forall s1: State, reason, peer | s1.phase.Leased? && s1.phase.lease.children == s.phase.lease.children
      ensures Admits(HandsOut(s.phase), EndLease(s1, reason, peer))
    {
      EndLeaseAdmits(s1, reason, peer);
      SameChildren(s, s1);
    }
  }

  lemma LeaseStreamAdmits(s: State, event: Event, answers: Answers)
    requires Coherent(s) && s.phase.Leased? && event.stream == s.phase.lease.leaseStream && !event.tag.TimerFired?
    ensures Admits(HandsOut(s.phase), Drive(s, event, answers))
  {
    hide Scan, LiveTimers, Slots, EndLease, HandsOut, LeaseBytes;
    LeaseStreamIsNoChild(s);
    LeaseBytesAdmits(s, event, answers);
    forall reason, peer ensures Admits(HandsOut(s.phase), EndLease(s, reason, peer)) {
      EndLeaseAdmits(s, reason, peer);
    }
  }

  lemma OtherAdmits(s: State, event: Event, answers: Answers)
    requires Coherent(s) && s.phase.Leased? && !Concerns(s, event, event.stream) && !event.tag.TimerFired?
    requires event.stream != s.phase.lease.leaseStream
    ensures Admits(HandsOut(s.phase), Drive(s, event, answers))
  {
    hide Scan, LiveTimers, Slots, EndLease, HandsOut;
    forall reason, peer ensures Admits(HandsOut(s.phase), EndLease(s, reason, peer)) {
      EndLeaseAdmits(s, reason, peer);
    }
  }

  lemma SessionEventAdmits(s: State, id: u64, d: Driven)
    requires SessionOutcome(s, id, d)
    ensures Admits(HandsOut(s.phase), d)
  {
  }

  lemma DriveAdmits(s: State, event: Event, answers: Answers)
    requires Coherent(s) && !s.phase.Terminated?
    ensures Admits(HandsOut(s.phase), Drive(s, event, answers))
  {
    hide Coherent, Drive, HandsOut, SessionOutcome, EndedTruly, Admits;
    if !s.phase.Leased? {
      EarlyAdmits(s, event, answers);
      NothingHandsOut(s);
    } else if event.tag.TimerFired? && event.token in s.timers && IsSession(s.timers[event.token]) {
      SessionTimerOwned(s, event.token);
      SessionsAreIsolated(s, event, answers, s.timers[event.token].stream);
      SessionEventAdmits(s, s.timers[event.token].stream, Drive(s, event, answers));
    } else if event.tag.TimerFired? {
      FiringIs(s, event, answers);
      FiredAdmits(s, event);
      NoEndAdmits(HandsOut(s.phase), Driven(s, Err(InvalidArgument)));
    } else if event.stream == s.phase.lease.leaseStream {
      LeaseStreamAdmits(s, event, answers);
    } else if Concerns(s, event, event.stream) {
      SessionsAreIsolated(s, event, answers, event.stream);
      SessionEventAdmits(s, event.stream, Drive(s, event, answers));
    } else {
      OtherAdmits(s, event, answers);
    }
  }

  lemma NothingHandsOut(s: State)
    requires !s.phase.Leased?
    ensures !HandsOut(s.phase)
  {
  }

  // ---- Over runs -------------------------------------------------------

  /** Over every run, at the end of the lease: it admits a hand-off exactly if some
      session still known just before has had an application handed out or cut off. */
  lemma LeaseEndTellsHandoff(steps: seq<Step>, event: Event, answers: Answers)
    requires var s := Drives(NewState(), steps);
             var d := Drive(s, event, answers);
             !s.phase.Terminated? && d.result.Ok? && d.result.value.kind.LeaseTerminal?
    ensures var s, log := Drives(NewState(), steps), LogAfter(NewState(), map[], steps);
            var cut := CutAfter(NewState(), map[], steps);
            && (s.phase.Leased? ==> forall id :: id in s.phase.lease.children ==> id in log && id in cut)
            && (Drive(s, event, answers).result.value.handoff.HandoffPossibleOrConfirmed? <==>
                s.phase.Leased? && exists id :: id in s.phase.lease.children && log[id] + cut[id] > 0)
  {
    hide Coherent, Drive, Drives, LogAfter, CutAfter;
    NewIsCoherent();
    NewIsLogged();
    RunLogged(NewState(), map[], map[], steps);
    var s := Drives(NewState(), steps);
    DriveAdmits(s, event, answers);
    if s.phase.Leased? {
      var log, cut := LogAfter(NewState(), map[], steps), CutAfter(NewState(), map[], steps);
      forall id | id in s.phase.lease.children
        ensures id in log && id in cut && log[id] + cut[id] == s.phase.lease.children[id].applications
      {
      }
    }
  }

  /** What the lease ended with, it says on every later call. */
  lemma LeaseEndIsKept(steps: seq<Step>, event: Event, answers: Answers)
    requires Drives(NewState(), steps).phase.Terminated?
    ensures var s := Drives(NewState(), steps);
            Drive(s, event, answers) == Driven(s, Ok(EndOutcome(LeaseTerminal, 0, s.phase.terminal)))
  {
    hide Drives;
  }

  function Gone(): Step {
    On(StreamEof, 2, 0, [])
  }

  function Lost(): Step {
    On(LostEligibility, 0, 0, [])
  }

  /** The session with an application in hand ends, the lease does not. */
  lemma GoneLeaves()
    ensures var s := Stage(5);
            var d := Drive(s, Gone().event, Gone().answers);
            && d.s.phase == LeaseBegun().phase
            && d.result.Ok? && d.result.value.kind.SessionTerminal?
  {
    hide Scan;
    assert Stage(5).phase.lease.children - {2} == map[];
  }

  lemma LostAdmits()
    ensures Stage(5).nextToken < U64_MAX
    ensures Drive(Stage(5), Lost().event, Lost().answers).result
            == Ok(EndOutcome(LeaseTerminal, 0, TerminalInfo(EligibilityLost, HandoffPossibleOrConfirmed, None)))
  {
    assert 2 in Stage(5).phase.lease.children && Stage(5).phase.lease.children[2].applications == 1;
  }

  lemma LostDenies(s: State)
    requires s.phase == LeaseBegun().phase
    ensures Drive(s, Lost().event, Lost().answers).result
            == Ok(EndOutcome(LeaseTerminal, 0, TerminalInfo(EligibilityLost, NotHandedOff, None)))
  {
  }

  lemma LoggedOne(log: map<u64, nat>, cut: map<u64, nat>)
    requires Logged(Stage(5), log, cut) && forall id :: id in cut ==> cut[id] == 0
    ensures 2 in log && log[2] == 1
  {
    assert 2 in Stage(5).phase.lease.children;
  }

  lemma EndKeepsLog(log: map<u64, nat>, d: Driven)
    requires d.result.Ok? && d.result.value.kind.SessionTerminal?
    ensures Observed(log, Gone().event, d) == log
  {
  }

  /** A session that has already ended is no longer counted: of two reachable runs
      that both handed out an application, the lease end admits the hand-off in the
      one whose session is still there, and denies it in the one where it is not. */
  lemma EndedSessionIsForgotten()
    ensures var s, log := Drives(NewState(), Waiting()), LogAfter(NewState(), map[], Waiting());
            && 2 in log && log[2] == 1
            && Drive(s, Lost().event, Lost().answers).result
               == Ok(EndOutcome(LeaseTerminal, 0, TerminalInfo(EligibilityLost, HandoffPossibleOrConfirmed, None)))
    ensures var steps := Waiting() + [Gone()];
            var s, log := Drives(NewState(), steps), LogAfter(NewState(), map[], steps);
            && 2 in log && log[2] == 1
            && Drive(s, Lost().event, Lost().answers).result
               == Ok(EndOutcome(LeaseTerminal, 0, TerminalInfo(EligibilityLost, NotHandedOff, None)))
  {
    hide Drive, Drives, LogAfter, CutAfter, Waiting, Stage, Observed;
    assert Waiting() + [] == Waiting();
    WaitingRuns([]);
    DrivesNothing(Stage(5));
    NewIsCoherent();
    NewIsLogged();
    RunLogged(NewState(), map[], map[], Waiting());
    LostAdmits();
    NothingCutEarly(NewState(), map[], Waiting());
    LoggedOne(LogAfter(NewState(), map[], Waiting()), CutAfter(NewState(), map[], Waiting()));
    GoneLeaves();
    Appended(NewState(), map[], map[], Waiting(), Gone());
    EndKeepsLog(LogAfter(NewState(), map[], Waiting()), Drive(Stage(5), Gone().event, Gone().answers));
    LostDenies(Drives(NewState(), Waiting() + [Gone()]));
  }
}
