/** When a call is silent about the timer it starts, told by the cores of the
    sessions instead of by what they will answer. */
module SilentSessions {
  import opened Common
  import opened Terms
  import opened Framing
  import opened Supervisor
  import opened SupervisorTimers
  import opened SupervisorRuns
  import opened SupervisorGaps
  import opened SupervisedSessions
  import Noise
  import Records
  import Payloads
  import S = Session
  import Runs = SessionRuns

  // ---- One read --------------------------------------------------------

  /** The frame opens, and with it a receiving quota is reached. */
  predicate Overfull(c: S.Core, frame: Noise.Frame) {
    && S.Usable(c) && Noise.Opens(c.transport.value, frame)
    && (c.receivedRecords + 1 >= RECORD_LIMIT || c.receivedPlaintext + |frame.plaintext| >= BYTE_LIMIT)
  }

  /** The Target reads this frame here, and it is one too many. */
  predicate ReachesLimit(c: S.Core, call: S.Call) {
    match call
    case RecvFinished(frame) => c.sentFinished && !c.gotFinished && Overfull(c, frame)
    case Recv(frame) => c.sentFinished && c.gotFinished && Overfull(c, frame)
    case _ => false
  }

  predicate ClosesBy(e: S.Effect) {
    e.failure.Some? && e.failure.value.closeFrame.Some?
  }

  lemma OverfullReads(c: S.Core, frame: Noise.Frame)
    requires S.Usable(c) ==> S.Fits(c, 0, 0, true)
    ensures var read := S.ReadRecord(c, frame);
            if Overfull(c, frame) then read.result.Err? && read.result.error.closeFrame.Some?
            else read.result.Err? ==> read.result.error.closeFrame.None?
  {
    hide Records.DecodeRecord, S.CloseRecord, Records.Plain;
  }

  /** A read ends in a last Close exactly when it reaches a quota. */
  lemma ReadClosesExactly(c: S.Core, call: S.Call)
    requires Runs.Sound(S.Target, c) && (call.RecvFinished? || call.Recv?)
    ensures ClosesBy(S.Do(S.Target, c, call)) <==> ReachesLimit(c, call)
  {
    hide S.ReadRecord, Records.AcceptSpec, Payloads.ParseFinished, Payloads.ParseClose;
    OverfullReads(c, call.frame);
  }

  lemma GreetingNeverCloses(c: S.Core, frame: Noise.Frame)
    requires Runs.Sound(S.Target, c)
    ensures !ClosesBy(Greeted(c, frame))
    ensures Greeted(c, frame).failure.None? <==> Greets(c, frame)
  {
    hide Payloads.FinishedPayload, Records.EncodeRecord, S.CloseRecord, Records.Plain;
    var e := S.Do(S.Target, c, S.ReadHello(frame, Noise.NoHash()));
    if e.failure.None? {
      FinishedIsWritten(e.core);
    }
  }

  /** The second handshake message the core waits for. */
  predicate Greets(c: S.Core, frame: Noise.Frame) {
    && c.handshake.Some? && c.handshake.value.step == 1
    && frame.Message2? && frame.ctx == c.handshake.value.ctx && frame.payload == []
  }

  lemma FinishedIsWritten(c: S.Core)
    requires S.Usable(c) && !c.sentFinished && c.sessionHash.Some? && c.sentRecords == c.sentPlaintext == 0
    ensures S.Do(S.Target, c, S.SendFinished).failure.None?
  {
    hide Payloads.FinishedPayload, Records.EncodeRecord, S.AtLimit;
    var payload := Payloads.FinishedPayload(c.binding, S.TARGET_ROLE, c.sessionHash.value);
    Payloads.FinishedLength(c.binding, S.TARGET_ROLE, c.sessionHash.value);
  }

  // ---- A batch of them -------------------------------------------------

  /** The reading of a batch comes as far as its m-th frame: nothing before failed
      and at most one application was among it. */
  predicate ComesTo(phase: ChildPhase, c: S.Core, frames: seq<Noise.Frame>, m: nat)
    requires m <= |frames|
  {
    && (forall j :: 0 <= j < m ==> EffectAt(phase, c, frames, j).failure.None?)
    && (forall i, j :: 0 <= i < j < m && EffectAt(phase, c, frames, i).delivered.Some? ==>
          EffectAt(phase, c, frames, j).delivered.None?)
  }

  /** And there a quota is reached. */
  predicate LimitAt(phase: ChildPhase, c: S.Core, frames: seq<Noise.Frame>, m: nat) {
    && m < |frames| && ComesTo(phase, c, frames, m)
    && ReachesLimit(CoreAt(phase, c, frames, m), CallAt(phase, frames, m))
  }

  /** All of it is read, and it brings one application. */
  predicate BringsOne(phase: ChildPhase, c: S.Core, frames: seq<Noise.Frame>) {
    && ComesTo(phase, c, frames, |frames|)
    && exists j :: 0 <= j < |frames| && EffectAt(phase, c, frames, j).delivered.Some?
  }

  /** Nothing was delivered before the k-th frame, or what `got` says. */
  predicate Had(phase: ChildPhase, c: S.Core, frames: seq<Noise.Frame>, k: nat, got: Option<seq<byte>>)
    requires k <= |frames|
  {
    ComesTo(phase, c, frames, k)
    && (got.Some? <==> exists j :: 0 <= j < k && EffectAt(phase, c, frames, j).delivered.Some?)
  }

  /** From the k-th frame on, a quota is reached. */
  ghost predicate LimitFrom(phase: ChildPhase, c: S.Core, frames: seq<Noise.Frame>, k: nat) {
    exists m :: m >= k && LimitAt(phase, c, frames, m)
  }

  lemma LimitStep(phase: ChildPhase, c: S.Core, frames: seq<Noise.Frame>, k: nat)
    requires Runs.Sound(S.Target, c) && k < |frames| && ComesTo(phase, c, frames, k)
    ensures LimitFrom(phase, c, frames, k) <==>
            ClosesBy(EffectAt(phase, c, frames, k)) || LimitFrom(phase, c, frames, k + 1)
  {
    hide Runs.Sound, ReachesLimit, EffectAt, CoreAt, ComesTo, ClosesBy;
    ReadAt(phase, c, frames, k);
    if ClosesBy(EffectAt(phase, c, frames, k)) {
      assert LimitAt(phase, c, frames, k);
    }
  }

  lemma NoLimitLeft(phase: ChildPhase, c: S.Core, frames: seq<Noise.Frame>)
    ensures !LimitFrom(phase, c, frames, |frames|)
  {
  }

  lemma HadNext(phase: ChildPhase, c: S.Core, frames: seq<Noise.Frame>, k: nat, got: Option<seq<byte>>)
    requires k < |frames| && Had(phase, c, frames, k, got) && EffectAt(phase, c, frames, k).failure.None?
    requires got.Some? ==> EffectAt(phase, c, frames, k).delivered.None?
    ensures Had(phase, c, frames, k + 1, if got.Some? then got else EffectAt(phase, c, frames, k).delivered)
  {
    hide EffectAt;
  }

  lemma HadAll(phase: ChildPhase, c: S.Core, frames: seq<Noise.Frame>, got: Option<seq<byte>>)
    requires Had(phase, c, frames, |frames|, got)
    ensures got.Some? <==> BringsOne(phase, c, frames)
  {
    hide EffectAt;
  }

  lemma {:induction false} BatchSays(w: Wire, phase: ChildPhase, c: S.Core, frames: seq<Noise.Frame>, answers: Answers,
                                     k: nat, got: Option<seq<byte>>)
    requires Runs.Sound(S.Target, c) && k <= |frames| && Had(phase, c, frames, k, got)
    requires forall j :: 0 <= j < |frames| ==> answers.application(j) == Delivered(w, EffectAt(phase, c, frames, j))
    ensures var batch := ReadBatch(answers, k, |frames|, got);
            && (batch.Failing? && batch.error.closeFrame.Some? <==> LimitFrom(phase, c, frames, k))
            && (batch.One? <==> BringsOne(phase, c, frames))
    decreases |frames| - k
  {
    hide S.Do, Runs.Sound, EffectAt, LimitFrom, BringsOne, Had;
    if k == |frames| {
      NoLimitLeft(phase, c, frames);
      HadAll(phase, c, frames, got);
    } else {
      var e := EffectAt(phase, c, frames, k);
      HadComes(phase, c, frames, k, got);
      LimitStep(phase, c, frames, k);
      if e.failure.Some? {
        StopsHere(phase, c, frames, k);
      } else if e.delivered.Some? && got.Some? {
        TwoAreTooMany(phase, c, frames, k);
      } else {
        HadNext(phase, c, frames, k, got);
        BatchSays(w, phase, c, frames, answers, k + 1, if got.Some? then got else e.delivered);
      }
    }
  }

  lemma HadComes(phase: ChildPhase, c: S.Core, frames: seq<Noise.Frame>, k: nat, got: Option<seq<byte>>)
    requires k <= |frames| && Had(phase, c, frames, k, got)
    ensures ComesTo(phase, c, frames, k)
    ensures got.Some? <==> exists j :: 0 <= j < k && EffectAt(phase, c, frames, j).delivered.Some?
  {
  }

  lemma ReadAt(phase: ChildPhase, c: S.Core, frames: seq<Noise.Frame>, k: nat)
    requires Runs.Sound(S.Target, c) && k < |frames|
    ensures ClosesBy(EffectAt(phase, c, frames, k)) <==>
            ReachesLimit(CoreAt(phase, c, frames, k), CallAt(phase, frames, k))
  {
    hide S.Do, Runs.Sound, ReachesLimit, CoreAt, ClosesBy;
    BatchIsSound(phase, c, frames, k);
    ReadClosesExactly(CoreAt(phase, c, frames, k), CallAt(phase, frames, k));
  }

  lemma StopsHere(phase: ChildPhase, c: S.Core, frames: seq<Noise.Frame>, k: nat)
    requires k < |frames| && EffectAt(phase, c, frames, k).failure.Some?
    ensures !LimitFrom(phase, c, frames, k + 1)
    ensures !BringsOne(phase, c, frames)
  {
    hide EffectAt, ReachesLimit, CoreAt;
  }

  lemma TwoAreTooMany(phase: ChildPhase, c: S.Core, frames: seq<Noise.Frame>, k: nat)
    requires k < |frames| && EffectAt(phase, c, frames, k).delivered.Some?
    requires exists j :: 0 <= j < k && EffectAt(phase, c, frames, j).delivered.Some?
    ensures !LimitFrom(phase, c, frames, k + 1)
    ensures !BringsOne(phase, c, frames)
  {
    hide EffectAt, ReachesLimit, CoreAt;
    var j :| 0 <= j < k && EffectAt(phase, c, frames, j).delivered.Some?;
    forall m | k < m <= |frames| ensures !ComesTo(phase, c, frames, m) {
      assert EffectAt(phase, c, frames, k).delivered.Some?;
    }
  }

  // ---- Silence ---------------------------------------------------------

  /** A frame timer is started and nobody is told: the session is not waiting for
      the peer; or its core, reading on, reaches a receiving quota while a token
      is left for the Close; or the tokens, or the applications, have run out. */
  ghost predicate SilentByCore(w: Wire, sys: System, event: Event)
    requires ToSession(sys.s, event) && (HasCore(Addressed(sys.s, event).phase) ==> event.stream in sys.cores)
  {
    var s, child, arrived := sys.s, Addressed(sys.s, event), Arriving(sys.s, event);
    && StartsFrameTimer(s, child.frameTimer, arrived)
    && var frames := Opened(w, arrived.frames);
       if child.phase.AwaitM2? then
         |frames| == 1 && OutOfTokens(s) && Greets(sys.cores[event.stream], frames[0])
       else if child.phase.AwaitFinished? || child.phase.AwaitApplication? then
         var c := sys.cores[event.stream];
         || (s.nextToken as int + 1 < U64_MAX && LimitFrom(child.phase, c, frames, 0))
         || (child.applications == U64_MAX && BringsOne(child.phase, c, frames))
       else true
  }

  lemma ReadingIs(w: Wire, sys: System, i: Input)
    requires ToSession(sys.s, i.event) && AllBacked(sys.s, sys.cores) && HasCore(Addressed(sys.s, i.event).phase)
    requires StartsFrameTimer(sys.s, Addressed(sys.s, i.event).frameTimer, Arriving(sys.s, i.event))
    ensures Reading(sys, i.event) && Runs.Sound(S.Target, sys.cores[i.event.stream])
  {
    hide Runs.Sound, Scan;
  }

  /** Before the first frame nothing has happened. */
  lemma NothingHad(phase: ChildPhase, c: S.Core, frames: seq<Noise.Frame>)
    ensures Had(phase, c, frames, 0, None) && ComesTo(phase, c, frames, 0)
  {
  }

  /** The batch as the supervisor reads it, a Finished first where one is awaited. */
  lemma FirstIsFinished(w: Wire, c: S.Core, frames: seq<Noise.Frame>, answers: Answers)
    requires Runs.Sound(S.Target, c) && frames != [] && AnswersReading(w, c, AwaitFinished, frames, answers)
    ensures if answers.finished.Some?
            then (answers.finished.value.closeFrame.Some? <==> LimitFrom(AwaitFinished, c, frames, 0))
                 && !BringsOne(AwaitFinished, c, frames)
            else Had(AwaitFinished, c, frames, 1, None)
                 && (LimitFrom(AwaitFinished, c, frames, 0) <==> LimitFrom(AwaitFinished, c, frames, 1))
  {
    hide Runs.Sound, EffectAt, LimitFrom, BringsOne, Had, ComesTo, Greeted;
    var first := EffectAt(AwaitFinished, c, frames, 0);
    NothingHad(AwaitFinished, c, frames);
    LimitStep(AwaitFinished, c, frames, 0);
    if first.failure.Some? {
      StopsHere(AwaitFinished, c, frames, 0);
    } else {
      FinishedDeliversNothing(AwaitFinished, c, frames);
      HadNext(AwaitFinished, c, frames, 0, None);
    }
  }

  lemma FinishedDeliversNothing(phase: ChildPhase, c: S.Core, frames: seq<Noise.Frame>)
    requires phase.AwaitFinished? && frames != []
    ensures EffectAt(phase, c, frames, 0).delivered.None?
  {
    hide S.TargetReadFinished;
  }

  /** What the cores would answer decides it exactly as the cores themselves do. */
  lemma SilentExactly(w: Wire, sys: System, i: Input)
    requires Coherent(sys.s) && AllBacked(sys.s, sys.cores) && ToSession(sys.s, i.event)
    ensures HasCore(Addressed(sys.s, i.event).phase) ==> i.event.stream in sys.cores
    ensures SessionIsSilent(sys.s, i.event, AnswersOf(w, sys, i)) <==> SilentByCore(w, sys, i.event)
  {
    hide Coherent, Scan, Runs.Sound, AnswersReading, LimitFrom, BringsOne, Greets, ReadBatch,
         AnswersOf, StartsFrameTimer;
    var child, arrived := Addressed(sys.s, i.event), Arriving(sys.s, i.event);
    if StartsFrameTimer(sys.s, child.frameTimer, arrived) && HasCore(child.phase) {
      ReadingIs(w, sys, i);
      ComputedAnswers(w, sys, i);
      var c, frames, answers := sys.cores[i.event.stream], Opened(w, arrived.frames), AnswersOf(w, sys, i);
      assert AnswersReading(w, c, child.phase, frames, answers);
      if child.phase.AwaitM2? {
        HelloSays(w, c, child.phase, frames, answers);
      } else if child.phase.AwaitFinished? {
        FinishedBatchSays(w, c, frames, answers);
      } else if child.phase.AwaitApplication? {
        ApplicationBatchSays(w, c, frames, answers);
      }
    }
  }

  lemma HelloSays(w: Wire, c: S.Core, phase: ChildPhase, frames: seq<Noise.Frame>, answers: Answers)
    requires Runs.Sound(S.Target, c) && frames != [] && AnswersReading(w, c, phase, frames, answers)
    ensures if Greets(c, frames[0]) then answers.helloM2.Ok?
            else answers.helloM2.Err? && answers.helloM2.error.closeFrame.None?
  {
    hide Runs.Sound, Greets, Greeted, EffectAt;
    GreetingNeverCloses(c, frames[0]);
  }

  lemma ApplicationBatchSays(w: Wire, c: S.Core, frames: seq<Noise.Frame>, answers: Answers)
    requires Runs.Sound(S.Target, c) && frames != [] && AnswersReading(w, c, AwaitApplication, frames, answers)
    ensures var batch := ReadBatch(answers, 0, |frames|, None);
            && (batch.Failing? && batch.error.closeFrame.Some? <==> LimitFrom(AwaitApplication, c, frames, 0))
            && (batch.One? <==> BringsOne(AwaitApplication, c, frames))
  {
    hide Runs.Sound, EffectAt, LimitFrom, BringsOne, ReadBatch, Had, Greeted;
    NothingHad(AwaitApplication, c, frames);
    BatchSays(w, AwaitApplication, c, frames, answers, 0, None);
  }

  lemma FinishedBatchSays(w: Wire, c: S.Core, frames: seq<Noise.Frame>, answers: Answers)
    requires Runs.Sound(S.Target, c) && frames != [] && AnswersReading(w, c, AwaitFinished, frames, answers)
    ensures var batch := if answers.finished.Some? then Failing(answers.finished.value)
                         else ReadBatch(answers, 1, |frames|, None);
            && (batch.Failing? && batch.error.closeFrame.Some? <==> LimitFrom(AwaitFinished, c, frames, 0))
            && (batch.One? <==> BringsOne(AwaitFinished, c, frames))
  {
    hide Runs.Sound, EffectAt, LimitFrom, BringsOne, ReadBatch, Had, Greeted;
    FirstIsFinished(w, c, frames, answers);
    if answers.finished.None? {
      BatchSays(w, AwaitFinished, c, frames, answers, 1, None);
    }
  }

  // ---- Over runs -------------------------------------------------------

  /** The call of this input is silent, told by the state and the cores before it. */
  ghost predicate SilentBefore(w: Wire, sys: System, i: Input) {
    if ToSession(sys.s, i.event) then
      (HasCore(Addressed(sys.s, i.event).phase) ==> i.event.stream in sys.cores) && SilentByCore(w, sys, i.event)
    else LeaseIsSilent(sys.s, i.event, i.other)
  }

  lemma SilentIsBefore(w: Wire, sys: System, i: Input)
    requires Coherent(sys.s) && AllBacked(sys.s, sys.cores)
    ensures Silent(sys.s, i.event, AnswersOf(w, sys, i)) <==> SilentBefore(w, sys, i)
  {
    hide Coherent, Scan, SessionIsSilent, SilentByCore, AllBacked, Written, Greeted, EffectAt;
    if ToSession(sys.s, i.event) {
      SilentExactly(w, sys, i);
    }
  }

  /** The timers that the silent calls of a run start. */
  ghost function SilentlyBegun(w: Wire, sys: System, inputs: seq<Input>): set<u64>
    decreases |inputs|
  {
    if inputs == [] then {}
    else
      var own: set<u64> := if SilentBefore(w, sys, inputs[0]) then {sys.s.nextToken} else {};
      own + SilentlyBegun(w, SupervisedSessions.Step(w, sys, inputs[0]), inputs[1..])
  }

  lemma {:induction false} BegunAsStarted(w: Wire, sys: System, inputs: seq<Input>)
    requires Coherent(sys.s) && AllBacked(sys.s, sys.cores)
    ensures SilentlyBegun(w, sys, inputs) == StartedSilently(sys.s, StepsOf(w, sys, inputs))
    decreases |inputs|
  {
    hide Coherent, AllBacked, Drive, AnswersOf, CoreNext, Silent, SilentBefore;
    if inputs != [] {
      SilentIsBefore(w, sys, inputs[0]);
      StepKept(w, sys, inputs[0]);
      BegunAsStarted(w, SupervisedSessions.Step(w, sys, inputs[0]), inputs[1..]);
      assert StepsOf(w, sys, inputs)[1..] == StepsOf(w, SupervisedSessions.Step(w, sys, inputs[0]), inputs[1..]);
    }
  }

  /** Over every run of the supervisor with its cores: a live timer was never
      announced exactly when a call started it that was silent by the state, the
      cores and the bytes it was given. */
  lemma UnannouncedByCores(w: Wire, inputs: seq<Input>, t: u64)
    requires t in Run(w, NewSystem(), inputs).s.timers
    ensures t !in Announced(NewState(), StepsOf(w, NewSystem(), inputs)) <==> t in SilentlyBegun(w, NewSystem(), inputs)
  {
    hide Coherent, Drives, Run, StepsOf, StartedSilently, SilentlyBegun, Announced;
    NewIsCoherent();
    RunIsDrives(w, NewSystem(), inputs);
    BegunAsStarted(w, NewSystem(), inputs);
    LiveTimerIsUnannouncedExactly(NewState(), StepsOf(w, NewSystem(), inputs), t);
  }
}
