/** The supervisor together with the session cores it drives: what a core answers
    is what the session model computes, on the frames that have arrived. */
module SupervisedSessions {
  import opened Common
  import opened Terms
  import opened Framing
  import opened Supervisor
  import opened SupervisorTimers
  import opened SupervisorRuns
  import Payloads
  import Noise
  import Records
  import S = Session
  import Runs = SessionRuns
  import Calls

  /** How frames look on the wire: any way to seal and any way to open them. */
  datatype Wire = Wire(open: seq<byte> -> Noise.Frame, seal: Noise.Frame -> seq<byte>)

  /** The supervisor and the cores of its sessions. */
  datatype System = System(s: State, cores: map<u64, S.Core>)

  /** An event, what the bootstrap and lease cores answer, and the binding and
      secret of a session that is accepted. */
  datatype Input = Input(event: Event, other: Answers, binding: Payloads.SessionBinding, secret: Payloads.Bytes32)

  // ---- What the cores answer -------------------------------------------

  function Reported(w: Wire, f: S.Failure): CoreError {
    CoreError(f.reason,
              if f.peerClose.Some? then Some(PeerClose(f.peerClose.value.reason, f.peerClose.value.handoff)) else None,
              if f.closeFrame.Some? then Some(w.seal(f.closeFrame.value)) else None)
  }

  /** The frames as the core sees them. */
  function Opened(w: Wire, frames: seq<seq<byte>>): seq<Noise.Frame> {
    seq(|frames|, i requires 0 <= i < |frames| => w.open(frames[i]))
  }

  /** The k-th frame of a batch: the first may be a Finished. */
  function CallAt(phase: ChildPhase, frames: seq<Noise.Frame>, k: nat): S.Call
    requires k < |frames|
  {
    if phase.AwaitFinished? && k == 0 then S.RecvFinished(frames[0]) else S.Recv(frames[k])
  }

  function CoreAt(phase: ChildPhase, c: S.Core, frames: seq<Noise.Frame>, k: nat): S.Core
    requires k <= |frames|
  {
    if k == 0 then c else S.Do(S.Target, CoreAt(phase, c, frames, k - 1), CallAt(phase, frames, k - 1)).core
  }

  function EffectAt(phase: ChildPhase, c: S.Core, frames: seq<Noise.Frame>, k: nat): S.Effect
    requires k < |frames|
  {
    S.Do(S.Target, CoreAt(phase, c, frames, k), CallAt(phase, frames, k))
  }

  function Delivered(w: Wire, e: S.Effect): Result<Option<seq<byte>>, CoreError> {
    if e.failure.Some? then Err(Reported(w, e.failure.value)) else Ok(e.delivered)
  }

  /** Reading message 2 and writing the Finished. */
  function Greeted(c: S.Core, frame: Noise.Frame): S.Effect {
    var e := S.Do(S.Target, c, S.ReadHello(frame, Noise.NoHash()));
    if e.failure.Some? then e else S.Do(S.Target, e.core, S.SendFinished)
  }

  function Replied(w: Wire, e: S.Effect): Result<seq<seq<byte>>, CoreError> {
    if e.failure.Some? then Err(Reported(w, e.failure.value))
    else Ok(seq(|e.frames|, i requires 0 <= i < |e.frames| => w.seal(e.frames[i])))
  }

  function Written(w: Wire, e: S.Effect): Result<seq<byte>, CoreError> {
    if e.failure.Some? then Err(Reported(w, e.failure.value))
    else Ok(if e.frames == [] then [] else w.seal(e.frames[0]))
  }

  predicate HasCore(phase: ChildPhase) {
    !phase.TerminalPending? && !phase.Gone?
  }

  /** Frames have arrived that are looked at. */
  predicate Complete(s: State, event: Event) {
    && ToSession(s, event) && Arriving(s, event).Scanned? && Arriving(s, event).frames != []
    && TimerToSpare(s, Addressed(s, event).frameTimer, Arriving(s, event).tail)
  }

  /** They are for a session that has a core. */
  predicate Reading(sys: System, event: Event) {
    Complete(sys.s, event) && event.stream in sys.cores
  }

  /** A response for a session that is waiting for it. */
  predicate Responding(sys: System, event: Event) {
    && sys.s.phase.Leased? && event.flags == 0 && event.tag.RuntimeResponse?
    && event.stream != 0 && event.token == 0 && event.bytes != []
    && event.stream in sys.s.phase.lease.children && sys.s.phase.lease.children[event.stream].phase.AwaitRuntime?
    && event.stream in sys.cores
  }

  function Hello(i: Input): Option<S.Effect> {
    match S.NewTarget(i.binding, i.secret)
    case Err(_) => None
    case Ok(c) =>
      var e := S.Do(S.Target, c, S.WriteHello);
      if e.failure.Some? then None else Some(e)
  }

  function AnswersOf(w: Wire, sys: System, i: Input): Answers {
    var hello := i.other.(helloM1 := if Hello(i).Some? then Some(Written(w, Hello(i).value).value) else None);
    if Reading(sys, i.event) then
      var c, phase := sys.cores[i.event.stream], Addressed(sys.s, i.event).phase;
      var frames := Opened(w, Arriving(sys.s, i.event).frames);
      var first := EffectAt(phase, c, frames, 0);
      hello.(helloM2 := Written(w, Greeted(c, frames[0])),
             finished := if first.failure.Some? then Some(Reported(w, first.failure.value)) else None,
             application := (k: nat) => if k < |frames| then Delivered(w, EffectAt(phase, c, frames, k)) else Ok(None))
    else if Responding(sys, i.event) then
      hello.(response := Replied(w, S.Do(S.Target, sys.cores[i.event.stream], S.Send(i.event.bytes, false))))
    else hello
  }

  function CoreNext(w: Wire, sys: System, i: Input): map<u64, S.Core> {
    if Reading(sys, i.event) then
      var c, phase := sys.cores[i.event.stream], Addressed(sys.s, i.event).phase;
      var frames := Opened(w, Arriving(sys.s, i.event).frames);
      sys.cores[i.event.stream :=
        if phase.AwaitM2? then Greeted(c, frames[0]).core
        else if phase.AwaitFinished? || phase.AwaitApplication? then CoreAt(phase, c, frames, |frames|)
        else c]
    else if Responding(sys, i.event) then
      sys.cores[i.event.stream := S.Do(S.Target, sys.cores[i.event.stream], S.Send(i.event.bytes, false)).core]
    else if && i.event.tag.SessionAccepted? && Hello(i).Some?
            && Drive(sys.s, i.event, AnswersOf(w, sys, i)).result.Ok? then
      sys.cores[i.event.stream := Hello(i).value.core]
    else sys.cores
  }

  function DriveOf(w: Wire, sys: System, i: Input): Driven {
    Drive(sys.s, i.event, AnswersOf(w, sys, i))
  }

  function Step(w: Wire, sys: System, i: Input): System {
    System(DriveOf(w, sys, i).s, CoreNext(w, sys, i))
  }

  // ---- One call of a core ----------------------------------------------

  predicate Says(h: Handoff) {
    h.HandoffPossibleOrConfirmed?
  }

  /** A failure of a sound core: its Close, if there is one, admits what the core
      knows to be handed off. */
  predicate Truthful(c: S.Core, f: S.Failure) {
    f.closeFrame.Some? ==>
      && f.reason == RecordLimit
      && Runs.CloseIn(f.closeFrame.value).Some?
      && Runs.CloseIn(f.closeFrame.value).value.reason == RecordLimit
      && (Says(c.handoff) ==> Says(Runs.CloseIn(f.closeFrame.value).value.handoff))
  }

  lemma OnlyDeliverySays(c: S.Core, call: S.Call)
    requires call.ReadHello? || call.SendFinished? || call.RecvFinished? || call.Recv? || (call.Send? && !call.opening)
    ensures var e := S.Do(S.Target, c, call);
            e.failure.None? ==> (Says(e.core.handoff) <==> Says(c.handoff) || (call.Recv? && e.delivered.Some?))
  {
    hide S.AtLimit, Records.DecodeRecord, Records.AcceptSpec, Records.FragmentsFrom, Records.Plains, Noise.SealAll,
         S.Fits;
    hide Payloads.FinishedPayload, Payloads.ParseFinished, Payloads.ParseClose, Records.Plain;
  }

  /** Only a core that can still seal writes a last Close. */
  lemma CloseNeedsTransport(c: S.Core, call: S.Call)
    requires call.ReadHello? || call.SendFinished? || call.RecvFinished? || call.Recv? || (call.Send? && !call.opening)
    requires var e := S.Do(S.Target, c, call); e.failure.Some? && e.failure.value.closeFrame.Some?
    ensures S.Usable(c) && Runs.HitsLimit(S.Do(S.Target, c, call))
  {
    hide Records.DecodeRecord, Records.AcceptSpec, Records.FragmentsFrom, Records.Plains, Noise.SealAll;
    hide Payloads.FinishedPayload, Payloads.ParseFinished, Payloads.ParseClose, Records.Plain;
  }

  lemma CloseIsTheFrame(c: S.Core, call: S.Call)
    requires S.Do(S.Target, c, call).failure.Some?
    ensures var e := S.Do(S.Target, c, call);
            e.frames == if e.failure.value.closeFrame.Some? then [e.failure.value.closeFrame.value] else []
  {
    hide S.TargetWriteM1, S.TargetReadM2, S.TargetWriteFinished, S.TargetReadFinished, S.TargetReadApplication;
    hide S.TargetRespond, S.RoleWriteClose, S.RoleReadClose, S.Eof, S.ValidateBinding;
  }

  lemma CallIsTruthful(c: S.Core, call: S.Call)
    requires Runs.Sound(S.Target, c)
    requires call.ReadHello? || call.SendFinished? || call.RecvFinished? || call.Recv? || (call.Send? && !call.opening)
    ensures var e := S.Do(S.Target, c, call);
            && Runs.Sound(S.Target, e.core)
            && (e.failure.Some? ==> Truthful(c, e.failure.value))
            && (e.failure.None? ==> (Says(e.core.handoff) <==> Says(c.handoff) || (call.Recv? && e.delivered.Some?)))
  {
    hide Runs.Sound, S.Do, Runs.CloseIn;
    Runs.CallKeepsSound(S.Target, c, call);
    var e := S.Do(S.Target, c, call);
    OnlyDeliverySays(c, call);
    if e.failure.Some? && e.failure.value.closeFrame.Some? {
      CloseNeedsTransport(c, call);
      Runs.LimitErrorsClose(S.Target, c, call);
      CloseIsTheFrame(c, call);
    }
  }

  // ---- A batch of frames -----------------------------------------------

  /** The core behind a session says exactly what the session has handed out. */
  predicate Backed(cores: map<u64, S.Core>, id: u64, child: Child) {
    HasCore(child.phase) ==>
      && id in cores && Runs.Sound(S.Target, cores[id])
      && (Says(cores[id].handoff) <==> child.applications > 0)
  }

  lemma {:induction false} BatchIsSound(phase: ChildPhase, c: S.Core, frames: seq<Noise.Frame>, k: nat)
    requires Runs.Sound(S.Target, c) && k <= |frames|
    ensures Runs.Sound(S.Target, CoreAt(phase, c, frames, k))
    decreases k
  {
    hide Runs.Sound, S.Do;
    if k > 0 {
      BatchIsSound(phase, c, frames, k - 1);
      CallIsTruthful(CoreAt(phase, c, frames, k - 1), CallAt(phase, frames, k - 1));
    }
  }

  /** The k-th call on an honest batch. */
  lemma OneOfBatch(phase: ChildPhase, c: S.Core, frames: seq<Noise.Frame>, k: nat)
    requires Runs.Sound(S.Target, c) && k < |frames|
    ensures var e, at := EffectAt(phase, c, frames, k), CoreAt(phase, c, frames, k);
            && (e.failure.Some? ==> Truthful(at, e.failure.value))
            && (e.failure.None? ==> e.core == CoreAt(phase, c, frames, k + 1)
                                    && (Says(e.core.handoff) <==>
                                        Says(at.handoff) || (CallAt(phase, frames, k).Recv? && e.delivered.Some?)))
  {
    hide Runs.Sound, S.Do;
    BatchIsSound(phase, c, frames, k);
    CallIsTruthful(CoreAt(phase, c, frames, k), CallAt(phase, frames, k));
  }

  /** A last Close as bytes: it admits at least `handoff`. */
  ghost predicate AdmitsAtLeast(w: Wire, handoff: Handoff, error: CoreError) {
    error.closeFrame.Some? ==>
      && error.reason == RecordLimit
      && exists f: Noise.Frame ::
           && error.closeFrame.value == w.seal(f) && Runs.CloseIn(f).Some?
           && Runs.CloseIn(f).value.reason == RecordLimit
           && (Says(handoff) ==> Says(Runs.CloseIn(f).value.handoff))
  }

  lemma ReportAdmits(w: Wire, c: S.Core, f: S.Failure, handoff: Handoff)
    requires Truthful(c, f) && (Says(handoff) ==> Says(c.handoff))
    ensures AdmitsAtLeast(w, handoff, Reported(w, f))
  {
    hide Runs.CloseIn;
  }

  /** What the supervisor makes of a batch from the k-th frame on. */
  lemma {:induction false} BatchTells(w: Wire, phase: ChildPhase, c: S.Core, frames: seq<Noise.Frame>,
                                      answers: Answers, k: nat, got: Option<seq<byte>>)
    requires Runs.Sound(S.Target, c) && k <= |frames| && (phase.AwaitFinished? ==> k > 0)
    requires forall j :: 0 <= j < |frames| ==> answers.application(j) == Delivered(w, EffectAt(phase, c, frames, j))
    requires Says(CoreAt(phase, c, frames, k).handoff) <==> Says(c.handoff) || got.Some?
    ensures match ReadBatch(answers, k, |frames|, got)
            case Quiet => Says(CoreAt(phase, c, frames, |frames|).handoff) <==> Says(c.handoff)
            case One(_) => Says(CoreAt(phase, c, frames, |frames|).handoff)
            case Two => true
            case Failing(error) => AdmitsAtLeast(w, c.handoff, error)
    decreases |frames| - k
  {
    hide Runs.Sound, S.Do, Truthful, AdmitsAtLeast, CoreAt;
    if k < |frames| {
      var e := EffectAt(phase, c, frames, k);
      OneOfBatch(phase, c, frames, k);
      if e.failure.Some? {
        ReportAdmits(w, CoreAt(phase, c, frames, k), e.failure.value, c.handoff);
      } else if e.delivered.None? {
        BatchTells(w, phase, c, frames, answers, k + 1, got);
      } else if got.None? {
        BatchTells(w, phase, c, frames, answers, k + 1, e.delivered);
      }
    }
  }

  // ---- One event of a session ------------------------------------------

  /** A last Close that is written out: the frame on the wire is a Close, and it
      admits a hand-off whenever the outcome does. */
  ghost predicate WritesTruly(w: Wire, r: Result<Outcome, SupervisorError>) {
    r.Ok? && r.value.flags == 8 ==>
      && r.value.kind.WriteFrames? && r.value.reason == RecordLimit
      && exists f: Noise.Frame ::
           && r.value.bytes == Some(w.seal(f)) && Runs.CloseIn(f).Some?
           && Runs.CloseIn(f).value.reason == RecordLimit
           && (Says(r.value.handoff) ==> Says(Runs.CloseIn(f).value.handoff))
  }

  ghost predicate Kept(w: Wire, cores: map<u64, S.Core>, id: u64, d: Driven) {
    && (d.s.phase.Leased? && id in d.s.phase.lease.children ==> Backed(cores, id, d.s.phase.lease.children[id]))
    && WritesTruly(w, d.result)
  }

  lemma PlainEndKept(w: Wire, cores: map<u64, S.Core>, s: State, id: u64, reason: CloseReason, peer: Option<PeerClose>)
    ensures Kept(w, cores, id, EndChild(s, id, reason, peer))
  {
    hide Runs.CloseIn, Backed;
  }

  lemma ErrorKept(w: Wire, cores: map<u64, S.Core>, s: State, id: u64, handoff: Handoff, error: CoreError)
    requires s.phase.Leased? && id in s.phase.lease.children && AdmitsAtLeast(w, handoff, error)
    requires s.phase.lease.children[id].applications > 0 ==> Says(handoff)
    ensures Kept(w, cores, id, ChildError(s, id, error))
  {
    hide Runs.CloseIn, EndChild, Runs.Sound;
    PlainEndKept(w, cores, s, id, error.reason, error.peerClose);
    PlainEndKept(w, cores, Allocate(s).s, id, InternalError, None);
  }

  lemma PlainErrorKept(w: Wire, cores: map<u64, S.Core>, s: State, id: u64, error: CoreError)
    requires s.phase.Leased? && id in s.phase.lease.children && error.closeFrame.None?
    ensures Kept(w, cores, id, ChildError(s, id, error))
  {
    hide Runs.CloseIn, EndChild, Backed;
    PlainEndKept(w, cores, s, id, error.reason, error.peerClose);
  }

  /** After reading: the child `held` is parked without its core, whose successor is `next`. */
  lemma TakeBatchKept(w: Wire, cores: map<u64, S.Core>, s: State, id: u64, was: S.Core, batch: Batch,
                      started: Option<u64>)
    requires s.phase.Leased? && id in s.phase.lease.children && s.phase.lease.children[id].phase.Gone?
    requires id in cores && Runs.Sound(S.Target, cores[id])
    requires Says(was.handoff) <==> s.phase.lease.children[id].applications > 0
    requires match batch
             case Quiet => Says(cores[id].handoff) <==> Says(was.handoff)
             case One(_) => Says(cores[id].handoff)
             case Two => true
             case Failing(error) => AdmitsAtLeast(w, was.handoff, error)
    ensures Kept(w, cores, id, TakeBatch(s, id, batch, started))
  {
    hide Runs.CloseIn, EndChild, ChildError, Runs.Sound, AdmitsAtLeast, HandOver;
    PlainEndKept(w, cores, s, id, SequenceViolation, None);
    match batch {
      case Failing(error) => ErrorKept(w, cores, s, id, was.handoff, error);
      case One(bytes) =>
        var c := s.phase.lease.children[id];
        if c.applications < U64_MAX {
          HandOverKept(w, cores, SetChild(s, id, c.(phase := AwaitRuntime, applications := c.applications + 1)), id,
                       bytes, started);
        }
      case _ =>
    }
  }

  lemma HandOverKept(w: Wire, cores: map<u64, S.Core>, s: State, id: u64, bytes: seq<byte>, started: Option<u64>)
    requires s.phase.Leased? && id in s.phase.lease.children && Backed(cores, id, s.phase.lease.children[id])
    ensures Kept(w, cores, id, HandOver(s, id, bytes, started))
  {
    hide Runs.CloseIn, Runs.Sound;
  }

  lemma ReadHelloKept(w: Wire, cores: map<u64, S.Core>, s: State, id: u64, was: S.Core, n: nat, answers: Answers,
                      started: Option<u64>)
    requires s.phase.Leased? && id in s.phase.lease.children && s.phase.lease.children[id].phase.Gone?
    requires Says(was.handoff) <==> s.phase.lease.children[id].applications > 0
    requires match answers.helloM2
             case Ok(_) => id in cores && Runs.Sound(S.Target, cores[id])
                           && (Says(cores[id].handoff) <==> Says(was.handoff))
             case Err(error) => AdmitsAtLeast(w, was.handoff, error)
    ensures Kept(w, cores, id, ReadHello(s, id, n, answers, started))
  {
    hide Runs.CloseIn, EndChild, ChildError, Runs.Sound, AdmitsAtLeast;
    PlainEndKept(w, cores, s, id, SequenceViolation, None);
    if answers.helloM2.Err? {
      ErrorKept(w, cores, s, id, was.handoff, answers.helloM2.error);
    }
  }

  /** Reading message 2 and writing the Finished. */
  lemma GreetingTells(w: Wire, c: S.Core, frame: Noise.Frame)
    requires Runs.Sound(S.Target, c)
    ensures var e := Greeted(c, frame);
            match Written(w, e)
            case Ok(_) => Runs.Sound(S.Target, e.core) && (Says(e.core.handoff) <==> Says(c.handoff))
            case Err(error) => AdmitsAtLeast(w, c.handoff, error)
  {
    hide Runs.Sound, S.Do, Truthful, AdmitsAtLeast;
    var hello := S.ReadHello(frame, Noise.NoHash());
    CallIsTruthful(c, hello);
    var e := S.Do(S.Target, c, hello);
    if e.failure.Some? {
      ReportAdmits(w, c, e.failure.value, c.handoff);
    } else {
      CallIsTruthful(e.core, S.SendFinished);
      var f := S.Do(S.Target, e.core, S.SendFinished);
      if f.failure.Some? {
        ReportAdmits(w, e.core, f.failure.value, c.handoff);
      }
    }
  }

  /** The cores answer in this call what the session model computes. */
  predicate AnswersReading(w: Wire, c: S.Core, phase: ChildPhase, frames: seq<Noise.Frame>, answers: Answers)
    requires frames != []
  {
    && answers.helloM2 == Written(w, Greeted(c, frames[0]))
    && answers.finished == (var first := EffectAt(phase, c, frames, 0);
                            if first.failure.Some? then Some(Reported(w, first.failure.value)) else None)
    && (forall j :: 0 <= j < |frames| ==> answers.application(j) == Delivered(w, EffectAt(phase, c, frames, j)))
  }

  /** What the core is left as. */
  function AfterReading(phase: ChildPhase, c: S.Core, frames: seq<Noise.Frame>): S.Core
    requires frames != []
  {
    if phase.AwaitM2? then Greeted(c, frames[0]).core
    else if phase.AwaitFinished? || phase.AwaitApplication? then CoreAt(phase, c, frames, |frames|)
    else c
  }

  lemma BatchForTells(w: Wire, phase: ChildPhase, c: S.Core, frames: seq<Noise.Frame>, answers: Answers)
    requires Runs.Sound(S.Target, c) && frames != [] && AnswersReading(w, c, phase, frames, answers)
    requires phase.AwaitFinished? || phase.AwaitApplication?
    ensures match BatchFor(phase, answers, |frames|)
            case Quiet => Says(AfterReading(phase, c, frames).handoff) <==> Says(c.handoff)
            case One(_) => Says(AfterReading(phase, c, frames).handoff)
            case Two => true
            case Failing(error) => AdmitsAtLeast(w, c.handoff, error)
    ensures Runs.Sound(S.Target, AfterReading(phase, c, frames))
  {
    hide Runs.Sound, S.Do, Truthful, AdmitsAtLeast, CoreAt, ReadBatch;
    BatchIsSound(phase, c, frames, |frames|);
    AtStart(phase, c, frames);
    if phase.AwaitFinished? {
      OneOfBatch(phase, c, frames, 0);
      var e := EffectAt(phase, c, frames, 0);
      if e.failure.Some? {
        ReportAdmits(w, c, e.failure.value, c.handoff);
      } else {
        BatchTells(w, phase, c, frames, answers, 1, None);
      }
    } else {
      BatchTells(w, phase, c, frames, answers, 0, None);
    }
  }

  lemma AtStart(phase: ChildPhase, c: S.Core, frames: seq<Noise.Frame>)
    ensures CoreAt(phase, c, frames, 0) == c
  {
  }

  lemma SessionBytesKept(w: Wire, s: State, cores: map<u64, S.Core>, event: Event, answers: Answers)
    requires Coherent(s) && ToSession(s, event) && Backed(cores, event.stream, Addressed(s, event))
    requires Complete(s, event) && event.stream in cores ==>
               AnswersReading(w, cores[event.stream], Addressed(s, event).phase, Opened(w, Arriving(s, event).frames),
                              answers)
    ensures var next := if Complete(s, event) && event.stream in cores
                        then cores[event.stream := AfterReading(Addressed(s, event).phase, cores[event.stream],
                                                                Opened(w, Arriving(s, event).frames))]
                        else cores;
            Kept(w, next, event.stream, SessionBytes(s, event, answers))
  {
    hide Runs.CloseIn, Runs.Sound, Scan, Coherent, EndChild, ChildError, TakeBatch, ReadHello, ReadBatch, CoreAt,
         Greeted;
    hide S.Do, AnswersReading;
    var id, c := event.stream, Addressed(s, event);
    DecoderIsLive(s, id);
    if Arriving(s, event).Broken? {
      PlainErrorKept(w, cores, SetChild(s, id, c.(decoder := Failed)), id, CoreError(Malformed, None, None));
    } else if Complete(s, event) && id in cores && HasCore(c.phase) {
      var decoder, arrived := Live(Arriving(s, event).tail), Arriving(s, event).frames;
      var t := UpdateFrameTimer(s, Incomplete(decoder), c.frameTimer, SessionFrame(id));
      var c1 := c.(decoder := decoder, frameTimer := t.slot);
      var held := SetChild(SetChild(t.s, id, c1), id, c1.(phase := Gone));
      var frames, core := Opened(w, arrived), cores[id];
      var next := cores[id := AfterReading(c.phase, core, frames)];
      if c.phase.AwaitM2? {
        GreetingTells(w, core, frames[0]);
        AnswersGreet(w, core, c.phase, frames, answers);
        ReadHelloKept(w, next, held, id, core, |arrived|, answers, t.started);
      } else if c.phase.AwaitFinished? || c.phase.AwaitApplication? {
        BatchForTells(w, c.phase, core, frames, answers);
        TakeBatchKept(w, next, held, id, core, BatchFor(c.phase, answers, |arrived|), t.started);
        if c.phase.AwaitFinished? && answers.finished.Some? {
          ErrorKept(w, next, held, id, core.handoff, answers.finished.value);
        }
      }
    }
  }

  lemma AnswersGreet(w: Wire, c: S.Core, phase: ChildPhase, frames: seq<Noise.Frame>, answers: Answers)
    requires frames != [] && AnswersReading(w, c, phase, frames, answers)
    ensures answers.helloM2 == Written(w, Greeted(c, frames[0]))
  {
    hide Greeted, EffectAt;
  }

  // ---- Every event -----------------------------------------------------

  predicate AllBacked(s: State, cores: map<u64, S.Core>) {
    s.phase.Leased? ==> forall id :: id in s.phase.lease.children ==> Backed(cores, id, s.phase.lease.children[id])
  }

  lemma RespondedKept(w: Wire, sys: System, event: Event, answers: Answers)
    requires sys.s.phase.Leased? && event.stream in sys.s.phase.lease.children && event.flags == 0
    requires event.tag.RuntimeResponse? && Backed(sys.cores, event.stream, sys.s.phase.lease.children[event.stream])
    requires Responding(sys, event) ==>
               answers.response == Replied(w, S.Do(S.Target, sys.cores[event.stream], S.Send(event.bytes, false)))
    ensures var next := if Responding(sys, event)
                        then sys.cores[event.stream :=
                                       S.Do(S.Target, sys.cores[event.stream], S.Send(event.bytes, false)).core]
                        else sys.cores;
            Kept(w, next, event.stream, Supervisor.Responded(sys.s, event, answers))
  {
    hide Runs.CloseIn, Runs.Sound, S.Do, ChildError, AdmitsAtLeast, Truthful;
    if Responding(sys, event) {
      var id := event.stream;
      var c, core := sys.s.phase.lease.children[id], sys.cores[id];
      var call := S.Send(event.bytes, false);
      var e := S.Do(S.Target, core, call);
      CallIsTruthful(core, call);
      if e.failure.Some? {
        ReportAdmits(w, core, e.failure.value, core.handoff);
        ErrorKept(w, sys.cores[id := e.core], SetChild(sys.s, id, c.(phase := Gone)), id, core.handoff,
                  answers.response.error);
      }
    }
  }

  lemma CommittedKept(w: Wire, cores: map<u64, S.Core>, s: State, id: u64, token: u64)
    requires s.phase.Leased? && (id in s.phase.lease.children ==> Backed(cores, id, s.phase.lease.children[id]))
    ensures Kept(w, cores, id, CommittedChild(s, id, token))
  {
    hide Runs.CloseIn, Runs.Sound;
  }

  lemma ClosedKept(w: Wire, cores: map<u64, S.Core>, s: State, event: Event, answers: Answers)
    requires s.phase.Leased? && event.stream in s.phase.lease.children && event.stream != s.phase.lease.leaseStream
    requires Backed(cores, event.stream, s.phase.lease.children[event.stream])
    ensures Kept(w, cores, event.stream, ClosedStream(s, event, answers))
  {
    hide Runs.CloseIn, Runs.Sound, EndChild, ChildError, ChildEnd;
    var id := event.stream;
    var error := ChildEnd(s.phase.lease.children[id], answers);
    EndErrorIsPlain(s.phase.lease.children[id], answers);
    if error.Some? {
      PlainErrorKept(w, cores, s, id, error.value);
    }
    PlainEndKept(w, cores, s, id, if event.tag.StreamCloseNormal? then Normal else PeerClosed, None);
  }

  lemma EndErrorIsPlain(c: Child, answers: Answers)
    ensures ChildEnd(c, answers).Some? ==> ChildEnd(c, answers).value.closeFrame.None?
  {
  }

  lemma HelloIsSound(i: Input)
    requires Hello(i).Some?
    ensures Runs.Sound(S.Target, Hello(i).value.core) && !Says(Hello(i).value.core.handoff)
  {
    var c := S.NewTarget(i.binding, i.secret).value;
    Runs.NewIsSound(S.Target, i.binding, i.secret);
    Runs.CallKeepsSound(S.Target, c, S.WriteHello);
  }

  lemma AcceptedKept(w: Wire, sys: System, event: Event, answers: Answers, hello: Option<S.Effect>)
    requires Coherent(sys.s) && sys.s.phase.Leased? && AllBacked(sys.s, sys.cores)
    requires answers.helloM1.Some? ==> hello.Some?
    requires hello.Some? ==> Runs.Sound(S.Target, hello.value.core) && !Says(hello.value.core.handoff)
    ensures var d := Accepted(sys.s, event, answers);
            var next := if d.result.Ok? && hello.Some? then sys.cores[event.stream := hello.value.core] else sys.cores;
            Kept(w, next, event.stream, d)
  {
    hide Runs.CloseIn, Runs.Sound, Coherent;
    NextIsPositive(sys.s);
  }

  /** Only a session's core error writes a last Close. */
  lemma EarlyWritesNoClose(s: State, event: Event, answers: Answers)
    requires !s.phase.Leased?
    ensures var d := Drive(s, event, answers); d.result.Ok? ==> d.result.value.flags != 8
  {
    hide Scan, LeaseHandoff;
  }

  lemma LeaseWritesNoClose(s: State, event: Event, answers: Answers)
    requires Coherent(s) && s.phase.Leased? && !Concerns(s, event, event.stream)
    requires event.tag.TimerFired? && event.token in s.timers ==> !IsSession(s.timers[event.token])
    ensures var d := Drive(s, event, answers); d.result.Ok? ==> d.result.value.flags != 8
  {
    hide Scan, LeaseHandoff, LiveTimers, Slots, SessionBytes, CommittedChild, ChildError, EndChild, ChildEnd;
    LeaseStreamIsNoChild(s);
  }

  lemma NoCloseWritten(w: Wire, r: Result<Outcome, SupervisorError>)
    requires r.Ok? ==> r.value.flags != 8
    ensures WritesTruly(w, r)
  {
  }

  /** The sessions an event does not concern keep their children and their cores. */
  lemma OthersBacked(s: State, s': State, cores: map<u64, S.Core>, next: map<u64, S.Core>, id: u64)
    requires AllBacked(s, cores) && Apart(s, id, s')
    requires forall k :: k != id && k in cores ==> k in next && next[k] == cores[k]
    requires id in s'.phase.lease.children ==> Backed(next, id, s'.phase.lease.children[id])
    ensures AllBacked(s', next)
  {
    hide Backed;
    forall k | k in s'.phase.lease.children && k != id ensures Backed(next, k, s'.phase.lease.children[k]) {
      assert k in OtherChildren(s', id);
      assert OtherChildren(s', id)[k] == OtherChildren(s, id)[k];
      SameBacking(cores, next, k, s.phase.lease.children[k]);
    }
  }

  lemma SameBacking(cores: map<u64, S.Core>, next: map<u64, S.Core>, k: u64, c: Child)
    requires Backed(cores, k, c) && (k in cores ==> k in next && next[k] == cores[k])
    ensures Backed(next, k, c)
  {
    hide Runs.Sound;
  }

  lemma OutcomeIsApart(s: State, id: u64, d: Driven)
    requires SessionOutcome(s, id, d)
    ensures Apart(s, id, d.s)
  {
  }

  /** What the one session an event concerns is left as. */
  lemma OwnerKept(w: Wire, sys: System, i: Input)
    requires Coherent(sys.s) && AllBacked(sys.s, sys.cores) && Concerns(sys.s, i.event, i.event.stream)
    requires !i.event.tag.TimerFired?
    ensures Kept(w, CoreNext(w, sys, i), i.event.stream, DriveOf(w, sys, i))
  {
    hide Runs.CloseIn, Runs.Sound, S.Do, Coherent, SessionBytes, Accepted, Supervisor.Responded, CommittedChild,
         ClosedStream;
    hide AnswersReading, Backed, Hello, WritesTruly;
    var s, event, id := sys.s, i.event, i.event.stream;
    var answers := AnswersOf(w, sys, i);
    Untouched(w, sys, id, event);
    match event.tag {
      case StreamBytes =>
        if ToSession(s, event) {
          if Reading(sys, event) {
            ComputedAnswers(w, sys, i);
          }
          SessionBytesKept(w, s, sys.cores, event, answers);
        }
      case RuntimeResponse =>
        if id in s.phase.lease.children {
          if event.flags == 0 {
            RespondedKept(w, sys, event, answers);
          }
        } else {
          UnknownIsRefused(s, event, answers);
        }
      case SessionAccepted =>
        if Hello(i).Some? {
          HelloIsSound(i);
        }
        AcceptedKept(w, sys, event, answers, Hello(i));
      case FullWriteCommitted => CommittedKept(w, sys.cores, s, id, event.token);
      case StreamEof | StreamIoFailed | StreamCloseNormal =>
        if id in s.phase.lease.children {
          ClosedKept(w, sys.cores, s, event, answers);
        } else {
          UnknownIsRefused(s, event, answers);
        }
      case _ =>
    }
  }

  lemma UnknownIsRefused(s: State, event: Event, answers: Answers)
    requires s.phase.Leased? && event.stream != s.phase.lease.leaseStream
    requires event.stream !in s.phase.lease.children
    ensures Supervisor.Responded(s, event, answers).s == s && Supervisor.Responded(s, event, answers).result.Err?
    ensures ClosedStream(s, event, answers).s == s && ClosedStream(s, event, answers).result.Err?
  {
  }

  lemma Untouched(w: Wire, sys: System, id: u64, event: Event)
    requires sys.s.phase.Leased? && AllBacked(sys.s, sys.cores)
    ensures forall e :: Kept(w, sys.cores, id, Driven(sys.s, Err(e)))
  {
    hide Backed;
  }

  lemma ComputedAnswers(w: Wire, sys: System, i: Input)
    requires Reading(sys, i.event)
    ensures AnswersReading(w, sys.cores[i.event.stream], Addressed(sys.s, i.event).phase,
                           Opened(w, Arriving(sys.s, i.event).frames), AnswersOf(w, sys, i))
  {
    hide S.Do, EffectAt, Greeted, Hello, Scan;
  }

  /** Every event keeps every session's core in step with it, and whatever last
      Close is written tells the truth. */
  lemma StepKept(w: Wire, sys: System, i: Input)
    requires Coherent(sys.s) && AllBacked(sys.s, sys.cores)
    ensures var next := Step(w, sys, i);
            && Coherent(next.s) && AllBacked(next.s, next.cores)
            && WritesTruly(w, DriveOf(w, sys, i).result)
  {
    hide Coherent, Drive, Concerns, SessionOutcome, EndedTruly, Apart, Backed, WritesTruly, AnswersOf, Fired;
    hide Hello, S.Do;
    var s, event, answers := sys.s, i.event, AnswersOf(w, sys, i);
    var d := Drive(s, event, answers);
    DriveKeeps(s, event, answers);
    CoresElsewhere(w, sys, i);
    if !s.phase.Leased? {
      NoSessionYet(s, event, answers);
      EarlyWritesNoClose(s, event, answers);
      NoCloseWritten(w, d.result);
    } else if event.tag.TimerFired? && event.token in s.timers && IsSession(s.timers[event.token]) {
      TimerKept(w, sys, i);
    } else if Concerns(s, event, event.stream) && !event.tag.TimerFired? {
      SessionsAreIsolated(s, event, answers, event.stream);
      OutcomeIsApart(s, event.stream, d);
      OwnerKept(w, sys, i);
      ApartIsLeased(s, event.stream, d.s);
      OthersBacked(s, d.s, sys.cores, CoreNext(w, sys, i), event.stream);
    } else {
      TimersConcernOthers(s, event);
      LeaseEvent(s, event, answers);
      LeaseWritesNoClose(s, event, answers);
      NoCloseWritten(w, d.result);
      LeaseMovesNoCore(w, sys, i);
    }
  }

  lemma ApartIsLeased(s: State, id: u64, s': State)
    requires Apart(s, id, s')
    ensures s'.phase.Leased?
  {
  }

  lemma TimersConcernOthers(s: State, event: Event)
    requires s.phase.Leased?
    requires event.tag.TimerFired? && event.token in s.timers ==> !IsSession(s.timers[event.token])
    ensures event.tag.TimerFired? ==> !Concerns(s, event, event.stream)
  {
  }

  /** Only the core of the stream addressed moves. */
  lemma CoresElsewhere(w: Wire, sys: System, i: Input)
    ensures forall k :: k != i.event.stream && k in sys.cores ==>
              k in CoreNext(w, sys, i) && CoreNext(w, sys, i)[k] == sys.cores[k]
    ensures i.event.tag.TimerFired? ==> CoreNext(w, sys, i) == sys.cores
  {
    hide S.Do, Drive, AnswersOf, Hello, Greeted, CoreAt, Scan;
  }

  lemma LeaseMovesNoCore(w: Wire, sys: System, i: Input)
    requires Coherent(sys.s) && sys.s.phase.Leased? && !Concerns(sys.s, i.event, i.event.stream)
    ensures CoreNext(w, sys, i) == sys.cores
  {
    hide S.Do, AnswersOf, Hello, Greeted, CoreAt, Scan, LiveTimers, LeaseHandoff;
    LeaseStreamIsNoChild(sys.s);
  }

  lemma TimerKept(w: Wire, sys: System, i: Input)
    requires Coherent(sys.s) && sys.s.phase.Leased? && AllBacked(sys.s, sys.cores)
    requires i.event.tag.TimerFired? && i.event.token in sys.s.timers && IsSession(sys.s.timers[i.event.token])
    ensures AllBacked(DriveOf(w, sys, i).s, CoreNext(w, sys, i))
    ensures WritesTruly(w, DriveOf(w, sys, i).result)
  {
    hide Coherent, Drive, SessionOutcome, EndedTruly, Apart, Backed, WritesTruly, AnswersOf, Fired;
    hide Hello, S.Do;
    var s, event, answers := sys.s, i.event, AnswersOf(w, sys, i);
    var d := Drive(s, event, answers);
    SessionTimerOwned(s, event.token);
    var id := s.timers[event.token].stream;
    SessionsAreIsolated(s, event, answers, id);
    OutcomeIsApart(s, id, d);
    ApartIsLeased(s, id, d.s);
    CoresElsewhere(w, sys, i);
    FiringEnds(s, event, answers, id);
    if id in d.s.phase.lease.children {
      NoCloseWritten(w, d.result);
    } else {
      OthersBacked(s, d.s, sys.cores, sys.cores, id);
      NoCloseWritten(w, d.result);
    }
  }

  /** A session's timer is refused or ends the session, without a Close. */
  lemma FiringEnds(s: State, event: Event, answers: Answers, id: u64)
    requires Coherent(s) && s.phase.Leased? && event.tag.TimerFired? && event.token in s.timers
    requires IsSession(s.timers[event.token]) && s.timers[event.token].stream == id
    ensures var d := Drive(s, event, answers);
            && (d.result.Ok? ==> d.result.value.flags != 8)
            && (d.s == s || (d.s.phase.Leased? && id !in d.s.phase.lease.children))
  {
    hide Coherent;
  }

  // ---- Whole runs ------------------------------------------------------

  function Run(w: Wire, sys: System, inputs: seq<Input>): System
    decreases |inputs|
  {
    if inputs == [] then sys else Run(w, Step(w, sys, inputs[0]), inputs[1..])
  }

  /** The supervisor's own steps in such a run. */
  function StepsOf(w: Wire, sys: System, inputs: seq<Input>): (steps: seq<SupervisorTimers.Step>)
    ensures |steps| == |inputs|
    decreases |inputs|
  {
    if inputs == [] then []
    else
      [SupervisorTimers.Step(inputs[0].event, AnswersOf(w, sys, inputs[0]))]
      + StepsOf(w, Step(w, sys, inputs[0]), inputs[1..])
  }

  lemma {:induction false} RunIsDrives(w: Wire, sys: System, inputs: seq<Input>)
    ensures Run(w, sys, inputs).s == Drives(sys.s, StepsOf(w, sys, inputs))
    decreases |inputs|
  {
    hide Drive, AnswersOf, CoreNext;
    if inputs != [] {
      RunIsDrives(w, Step(w, sys, inputs[0]), inputs[1..]);
      var steps := StepsOf(w, sys, inputs);
      assert steps[1..] == StepsOf(w, Step(w, sys, inputs[0]), inputs[1..]);
    }
  }

  lemma {:induction false} RunKept(w: Wire, sys: System, inputs: seq<Input>)
    requires Coherent(sys.s) && AllBacked(sys.s, sys.cores)
    ensures var end := Run(w, sys, inputs); Coherent(end.s) && AllBacked(end.s, end.cores)
    decreases |inputs|
  {
    hide Coherent, AllBacked, Step;
    if inputs != [] {
      StepKept(w, sys, inputs[0]);
      RunKept(w, Step(w, sys, inputs[0]), inputs[1..]);
    }
  }

  function NewSystem(): System {
    System(NewState(), map[])
  }

  /** Over every run of the supervisor with its cores: while a session lives, its
      core admits a hand-off exactly when an application of it was handed out or cut
      off, and every last Close that is written to the wire admits one whenever an
      application was handed out -- also where the session's end, reported once
      that Close is committed, denies it. */
  lemma LastCloseNeverDenies(w: Wire, inputs: seq<Input>, i: Input)
    ensures var sys := Run(w, NewSystem(), inputs);
            var steps := StepsOf(w, NewSystem(), inputs);
            var log, cut := LogAfter(NewState(), map[], steps), CutAfter(NewState(), map[], steps);
            && (sys.s.phase.Leased? ==>
                  forall id :: id in sys.s.phase.lease.children && HasCore(sys.s.phase.lease.children[id].phase) ==>
                    && id in sys.cores && id in log && id in cut
                    && (Says(sys.cores[id].handoff) <==> log[id] > 0 || cut[id] > 0))
            && var r := DriveOf(w, sys, i).result;
               r.Ok? && r.value.flags == 8 ==>
                 && r.value.stream in log
                 && exists f: Noise.Frame ::
                      && r.value.bytes == Some(w.seal(f)) && Runs.CloseIn(f).Some?
                      && Runs.CloseIn(f).value.reason == RecordLimit
                      && (log[r.value.stream] > 0 ==> Says(Runs.CloseIn(f).value.handoff))
  {
    hide Coherent, Drive, Logged, Observed, CutOffs, Backed, AnswersOf, CoreNext, Runs.CloseIn, Runs.Sound;
    var steps := StepsOf(w, NewSystem(), inputs);
    NewIsCoherent();
    NewIsLogged();
    RunIsDrives(w, NewSystem(), inputs);
    RunKept(w, NewSystem(), inputs);
    RunLogged(NewState(), map[], map[], steps);
    var sys := Run(w, NewSystem(), inputs);
    var log, cut := LogAfter(NewState(), map[], steps), CutAfter(NewState(), map[], steps);
    CoresTell(sys, log, cut);
    StepKept(w, sys, i);
    var r := DriveOf(w, sys, i).result;
    if r.Ok? && r.value.flags == 8 {
      CloseIsASessions(w, sys, i, log, cut);
      var f: Noise.Frame :| && r.value.bytes == Some(w.seal(f)) && Runs.CloseIn(f).Some?
                            && Runs.CloseIn(f).value.reason == RecordLimit
                            && (Says(r.value.handoff) ==> Says(Runs.CloseIn(f).value.handoff));
    }
  }

  lemma CoresTell(sys: System, log: map<u64, nat>, cut: map<u64, nat>)
    requires AllBacked(sys.s, sys.cores) && Logged(sys.s, log, cut)
    ensures sys.s.phase.Leased? ==>
              forall id :: id in sys.s.phase.lease.children && HasCore(sys.s.phase.lease.children[id].phase) ==>
                && id in sys.cores && id in log && id in cut
                && (Says(sys.cores[id].handoff) <==> log[id] > 0 || cut[id] > 0)
  {
    hide Runs.Sound;
    if sys.s.phase.Leased? {
      forall id | id in sys.s.phase.lease.children && HasCore(sys.s.phase.lease.children[id].phase)
        ensures && id in sys.cores && id in log && id in cut
                && (Says(sys.cores[id].handoff) <==> log[id] > 0 || cut[id] > 0)
      {
        assert Backed(sys.cores, id, sys.s.phase.lease.children[id]);
      }
    }
  }

  /** A last Close is written for a session, and its outcome tells what the session counted. */
  lemma CloseIsASessions(w: Wire, sys: System, i: Input, log: map<u64, nat>, cut: map<u64, nat>)
    requires Coherent(sys.s) && Logged(sys.s, log, cut)
    requires var r := DriveOf(w, sys, i).result; r.Ok? && r.value.flags == 8
    ensures var o := DriveOf(w, sys, i).result.value;
            o.stream in log && (log[o.stream] > 0 ==> Says(o.handoff))
  {
    hide Coherent, AnswersOf, Logged;
    var s, event, answers := sys.s, i.event, AnswersOf(w, sys, i);
    if !s.phase.Leased? {
      EarlyWritesNoClose(s, event, answers);
    } else if event.tag.TimerFired? && event.token in s.timers && IsSession(s.timers[event.token]) {
      FiringEnds(s, event, answers, s.timers[event.token].stream);
    } else if Concerns(s, event, event.stream) && !event.tag.TimerFired? {
      CloseTells(s, event, answers);
      ChildLogged(s, log, cut, event.stream);
    } else {
      TimersConcernOthers(s, event);
      LeaseWritesNoClose(s, event, answers);
    }
  }

  lemma ChildLogged(s: State, log: map<u64, nat>, cut: map<u64, nat>, id: u64)
    requires Logged(s, log, cut) && s.phase.Leased?
    ensures id in s.phase.lease.children ==> id in log && (log[id] > 0 ==> s.phase.lease.children[id].applications > 0)
  {
  }

  /** A last Close among the outcomes is the session's and tells what it counted. */
  predicate TellsOf(s: State, id: u64, d: Driven)
    requires s.phase.Leased? && id in s.phase.lease.children
  {
    d.result.Ok? && d.result.value.flags == 8 ==>
      d.result.value.stream == id && (s.phase.lease.children[id].applications > 0 ==> Says(d.result.value.handoff))
  }

  lemma ErrorTells(s: State, id: u64, error: CoreError)
    requires s.phase.Leased? && id in s.phase.lease.children
    ensures TellsOf(s, id, ChildError(s, id, error))
  {
  }

  lemma ReadingTells(s: State, id: u64, n: nat, batch: Batch, answers: Answers, started: Option<u64>)
    requires s.phase.Leased? && id in s.phase.lease.children
    ensures TellsOf(s, id, ReadHello(s, id, n, answers, started))
    ensures TellsOf(s, id, TakeBatch(s, id, batch, started))
  {
    hide ChildError;
    if answers.helloM2.Err? {
      ErrorTells(s, id, answers.helloM2.error);
    }
    if batch.Failing? {
      ErrorTells(s, id, batch.error);
    }
  }

  lemma SessionBytesTell(s: State, event: Event, answers: Answers)
    requires Coherent(s) && ToSession(s, event)
    ensures TellsOf(s, event.stream, SessionBytes(s, event, answers))
  {
    hide Scan, Coherent, ChildError, TakeBatch, ReadHello, ReadBatch;
    var id, c := event.stream, Addressed(s, event);
    DecoderIsLive(s, id);
    if Arriving(s, event).Broken? {
      ErrorTells(SetChild(s, id, c.(decoder := Failed)), id, CoreError(Malformed, None, None));
    } else {
      var decoder, n := Live(Arriving(s, event).tail), |Arriving(s, event).frames|;
      var t := UpdateFrameTimer(s, Incomplete(decoder), c.frameTimer, SessionFrame(id));
      var c1 := c.(decoder := decoder, frameTimer := t.slot);
      var held := SetChild(SetChild(t.s, id, c1), id, c1.(phase := Gone));
      if n > 0 {
        ReadingTells(held, id, n, BatchFor(c.phase, answers, n), answers, t.started);
        if answers.finished.Some? {
          ErrorTells(held, id, answers.finished.value);
        }
      }
    }
  }

  lemma OthersTell(s: State, event: Event, answers: Answers)
    requires s.phase.Leased? && event.stream != s.phase.lease.leaseStream
    ensures var r := Accepted(s, event, answers).result; r.Ok? ==> r.value.flags != 8
    ensures var r := CommittedChild(s, event.stream, event.token).result; r.Ok? ==> r.value.flags != 8
    ensures if event.stream in s.phase.lease.children then
              && TellsOf(s, event.stream, Supervisor.Responded(s, event, answers))
              && TellsOf(s, event.stream, ClosedStream(s, event, answers))
            else Supervisor.Responded(s, event, answers).result.Err? && ClosedStream(s, event, answers).result.Err?
  {
    hide ChildError, ChildEnd;
    var id := event.stream;
    if id in s.phase.lease.children {
      var c := s.phase.lease.children[id];
      if ChildEnd(c, answers).Some? {
        ErrorTells(s, id, ChildEnd(c, answers).value);
      }
      if answers.response.Err? {
        ErrorTells(SetChild(s, id, c.(phase := Gone)), id, answers.response.error);
      }
    }
  }

  lemma CloseTells(s: State, event: Event, answers: Answers)
    requires Coherent(s) && Concerns(s, event, event.stream) && !event.tag.TimerFired?
    requires var r := Drive(s, event, answers).result; r.Ok? && r.value.flags == 8
    ensures event.stream in s.phase.lease.children && TellsOf(s, event.stream, Drive(s, event, answers))
  {
    hide Coherent, Scan, SessionBytes, Accepted, Supervisor.Responded, CommittedChild, ClosedStream;
    OthersTell(s, event, answers);
    if ToSession(s, event) {
      SessionBytesTell(s, event, answers);
    }
  }
}
