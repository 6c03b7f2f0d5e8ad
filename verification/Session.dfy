/** The per-stream session core: handshake, Finished exchange, the half-duplex
    application turn, quotas with a reserve for one last Close, and the
    conservative hand-off flag.  The functions say what every call does to the
    state as a value; the classes are the mutable objects. */
module Session {
  import opened Common
  import opened Terms
  import opened Payloads
  import opened Records
  import opened Noise

  const REQUEST_BYTES := 16 * 1024 * 1024
  const RESPONSE_BYTES := 64 * 1024 * 1024
  const FIRST_OPEN_BYTES := 64 * 1024

  const TARGET_ROLE: byte := 0
  const BROKER_ROLE: byte := 1

  datatype Closing = Closing(reason: CloseReason, handoff: Handoff)

  datatype Failure = Failure(reason: CloseReason, peerClose: Option<Closing>, closeFrame: Option<Frame>)

  function Plainly(reason: CloseReason): Failure {
    Failure(reason, None, None)
  }

  function CloseRecord(closing: Closing): (r: Record)
    ensures |r.data| == CLOSE_LEN && r.kind.Close?
  {
    CloseLength(closing.reason, closing.handoff);
    Record(RecordKind.Close, true, true, CLOSE_LEN, 0, ClosePayload(closing.reason, closing.handoff))
  }

  const CLOSE_RECORD_LEN := RECORD_HEADER_LEN + CLOSE_LEN

  /** Every Close record has the same length, whatever it says. */
  lemma ClosePlainLength(closing: Closing)
    ensures |Plain(CloseRecord(closing))| == CLOSE_RECORD_LEN
    ensures CompleteRecord(RecordKind.Close, ClosePayload(closing.reason, closing.handoff)) == Ok(CloseRecord(closing))
  {
    PlainFacts(CloseRecord(closing));
  }

  lemma CloseParses(closing: Closing)
    ensures ValidateComplete(CloseRecord(closing), RecordKind.Close).Ok?
    ensures ParseClose(CloseRecord(closing).data) == Ok((closing.reason, closing.handoff))
  {
    hide ClosePayload, ParseClose;
    CloseExact(ClosePayload(closing.reason, closing.handoff), closing.reason, closing.handoff);
  }

  datatype Core = Core(
    binding: SessionBinding,
    handshake: Option<Handshake>,
    transport: Option<Transport>,
    sessionHash: Option<Bytes32>,
    reassembly: Reassembly,
    sentFinished: bool,
    gotFinished: bool,
    peerTurn: bool,
    firstApplication: bool,
    closed: bool,
    sentRecords: nat,
    sentPlaintext: nat,
    receivedRecords: nat,
    receivedPlaintext: nat,
    handoff: Handoff)

  /** What a call leaves behind and what it returns. */
  datatype Out<+T> = Out(core: Core, result: Result<T, Failure>)

  function Fail<T>(c: Core, reason: CloseReason): Out<T> {
    Out(c, Err(Plainly(reason)))
  }

  function CloseState(c: Core): Core {
    c.(closed := true, transport := None, handshake := None, sessionHash := None,
       reassembly := c.reassembly.(active := None))
  }

  /** Every public call closes the core when it fails. */
  function Finish<T>(out: Out<T>): Out<T> {
    if out.result.Err? then out.(core := CloseState(out.core)) else out
  }

  function NewCore(binding: SessionBinding, psk: Bytes32, initiator: bool, cap: nat, peerTurn: bool):
      Result<Core, CloseReason> {
    if !ValidGeneration(binding.generation) || !ValidGeneration(binding.epoch) then Err(BindingMismatch)
    else Ok(Core(binding, Some(NewHandshake(initiator, Context(binding, psk))), None, None, NewReassembly(cap),
                 false, false, peerTurn, false, false, 0, 0, 0, 0, NotHandedOff))
  }

  // ---- Handshake -------------------------------------------------------

  function WriteHandshake(c: Core, hash: Bytes32): Out<Frame> {
    if c.handshake.None? then Fail(c, SequenceViolation)
    else
      match WriteMessage(c.handshake.value, [], hash)
      case Err(reason) => Fail(c, reason)
      case Ok(w) => Out(c.(handshake := Some(w.next)), Ok(w.frame))
  }

  function ReadHandshake(c: Core, frame: Frame): Out<()> {
    if c.handshake.None? then Fail(c, SequenceViolation)
    else
      match ReadMessage(c.handshake.value, frame)
      case Err(reason) => Fail(c, reason)
      case Ok(r) =>
        var c1 := c.(handshake := Some(r.next));
        if r.payload != [] then Fail(c1, AuthenticationFailed) else Out(c1, Ok(()))
  }

  function FinishHandshake(c: Core): Out<()> {
    if c.handshake.None? then Fail(c, SequenceViolation)
    else
      var c1 := c.(handshake := None, sessionHash := Some(c.handshake.value.hash));
      match IntoTransport(c.handshake.value)
      case Err(reason) => Fail(c1, reason)
      case Ok(t) => Out(c1.(transport := Some(t)), Ok(()))
  }

  // ---- Counting and sealing --------------------------------------------

  predicate Usable(c: Core) {
    !c.closed && c.transport.Some?
  }

  /** Whether that much more can be sent, with or without room for a Close after it. */
  predicate Fits(c: Core, records: nat, bytes: nat, reserveClose: bool) {
    && c.sentRecords + records + (if reserveClose then 1 else 0) < RECORD_LIMIT
    && c.sentPlaintext + bytes + (if reserveClose then CLOSE_RECORD_LEN else 0) < BYTE_LIMIT
  }

  function Sent(c: Core, records: nat, bytes: nat): Core {
    c.(sentRecords := c.sentRecords + records, sentPlaintext := c.sentPlaintext + bytes)
  }

  function AfterSealing(c: Core): Core
    requires c.transport.Some?
  {
    c.(transport := Some(AfterSeal(c.transport.value)))
  }

  /** A closed core has no transport left to tell how far it had sealed. */
  lemma ClosingForgetsSealing(c: Core, records: nat, bytes: nat)
    requires c.transport.Some?
    ensures Closed(AfterSealing(Sent(c, records, bytes))) == Closed(Sent(c, records, bytes))
    ensures CloseState(AfterSealing(Sent(c, records, bytes))) == CloseState(Sent(c, records, bytes))
  {
  }

  datatype Limited = Limited(core: Core, failure: Failure)

  /** A limit was hit: one last Close if it still fits, and the end. */
  function AtLimit(c: Core, handoff: Handoff): Limited {
    var closing := Closing(RecordLimit, handoff);
    ClosePlainLength(closing);
    if Fits(c, 1, CLOSE_RECORD_LEN, false) && Usable(c) then
      var frame := SealFrame(c.transport.value, Plain(CloseRecord(closing)));
      Limited(CloseState(Sent(c, 1, CLOSE_RECORD_LEN)), Failure(RecordLimit, None, Some(frame)))
    else Limited(CloseState(c), Plainly(RecordLimit))
  }

  function LimitError<T>(c: Core, handoff: Handoff): Out<T> {
    var l := AtLimit(c, handoff);
    Out(l.core, Err(l.failure))
  }

  function EncryptCounted(c: Core, r: Record): Out<Frame>
    requires |r.data| <= RECORD_DATA_MAX
  {
    PlainFacts(r);
    if !Fits(c, 1, RECORD_HEADER_LEN + |r.data|, true) then LimitError(c, c.handoff)
    else if !Usable(c) then Fail(c, SequenceViolation)
    else Out(AfterSealing(Sent(c, 1, RECORD_HEADER_LEN + |r.data|)), Ok(SealFrame(c.transport.value, Plain(r))))
  }

  function WriteRecord(c: Core, kind: RecordKind, payload: seq<byte>): Out<Frame> {
    if |payload| > RECORD_DATA_MAX then Fail(c, Oversize)
    else EncryptCounted(c, Record(kind, true, true, |payload|, 0, payload))
  }

  function DecryptCounted(c: Core, frame: Frame): Out<seq<byte>> {
    if !Usable(c) then Fail(c, SequenceViolation)
    else if !Opens(c.transport.value, frame) then Fail(c, AuthenticationFailed)
    else
      var c1 := c.(transport := Some(AfterOpen(c.transport.value)));
      if c.receivedRecords + 1 >= RECORD_LIMIT || c.receivedPlaintext + |frame.plaintext| >= BYTE_LIMIT
      then LimitError(c1, c.handoff)
      else Out(c1.(receivedRecords := c.receivedRecords + 1,
                   receivedPlaintext := c.receivedPlaintext + |frame.plaintext|), Ok(frame.plaintext))
  }

  /** Opens, counts and decodes one frame. */
  function ReadRecord(c: Core, frame: Frame): Out<Record> {
    var unsealed := DecryptCounted(c, frame);
    match unsealed.result
    case Err(e) => Out(unsealed.core, Err(e))
    case Ok(plain) =>
      match DecodeRecord(plain)
      case Err(reason) => Fail(unsealed.core, reason)
      case Ok(r) => Out(unsealed.core, Ok(r))
  }

  // ---- Finished --------------------------------------------------------

  function WriteFinished(c: Core, role: byte): Out<Frame> {
    if c.sentFinished || c.sessionHash.None? then Fail(c, SequenceViolation)
    else
      var out := WriteRecord(c, Finished, FinishedPayload(c.binding, role, c.sessionHash.value));
      if out.result.Err? then out else out.(core := out.core.(sentFinished := true))
  }

  function ReadFinished(c: Core, frame: Frame, role: byte): Out<()> {
    if c.gotFinished then Fail(c.(closed := true), AuthenticationFailed)
    else if c.sessionHash.None? then Fail(c, SequenceViolation)
    else
      var read := ReadRecord(c, frame);
      match read.result
      case Err(e) => Out(read.core, Err(e))
      case Ok(r) =>
        match ValidateComplete(r, Finished)
        case Err(reason) => Fail(read.core, reason)
        case Ok(_) =>
          match ParseFinished(r.data, c.binding, c.sessionHash.value)
          case Err(reason) => Fail(read.core, reason)
          case Ok(got) =>
            if got != role then Fail(read.core, AuthenticationFailed)
            else Out(read.core.(gotFinished := true), Ok(()))
  }

  // ---- Applications ----------------------------------------------------

  function SendMessage(c: Core, payload: seq<byte>): Out<seq<Frame>>
    requires Sendable(payload)
  {
    var rs := FragmentsFrom(Application, payload, 0);
    FragmentsFitFrames(rs);
    if !Fits(c, |rs|, Volume(Plains(rs)), true) then LimitError(c, c.handoff)
    else if !Usable(c) then Fail(c, SequenceViolation)
    else
      var t := c.transport.value;
      Out(Sent(c, |rs|, Volume(Plains(rs))).(transport := Some(t.(sendNonce := t.sendNonce + |rs|)), peerTurn := true),
          Ok(SealAll(t, Plains(rs))))
  }

  lemma FragmentsFitFrames(rs: seq<Record>)
    requires Fitting(rs)
    ensures Sealable(Plains(rs))
  {
    forall i | 0 <= i < |rs| ensures |Plains(rs)[i]| + TAG_LEN <= 65_535 {
      PlainFacts(rs[i]);
    }
  }

  function WriteApplication(c: Core, payload: seq<byte>, cap: nat): Out<seq<Frame>>
    requires cap <= RESPONSE_BYTES
  {
    if !c.sentFinished || !c.gotFinished || c.peerTurn || payload == [] then Fail(c, SequenceViolation)
    else if |payload| > cap then Fail(c, Oversize)
    else SendMessage(c, payload)
  }

  function ReadApplication(c: Core, frame: Frame): Out<Option<seq<byte>>> {
    if !c.sentFinished || !c.gotFinished then Fail(c, SequenceViolation)
    else
      var read := ReadRecord(c, frame);
      match read.result
      case Err(e) => Out(read.core, Err(e))
      case Ok(r) =>
        if r.kind.Close? then PeerClose(read.core, r)
        else if !c.peerTurn || !r.kind.Application? then Fail(read.core, SequenceViolation)
        else Assemble(read.core, r)
  }

  /** A Close that arrives where an application was awaited. */
  function PeerClose<T>(c: Core, r: Record): Out<T> {
    match ValidateComplete(r, RecordKind.Close)
    case Err(reason) => Fail(c, reason)
    case Ok(_) =>
      match ParseClose(r.data)
      case Err(reason) => Fail(c, reason)
      case Ok(close) =>
        Out(c.(closed := true), Err(Failure(PeerClosed, Some(Closing(close.0, close.1)), None)))
  }

  function Assemble(c: Core, r: Record): Out<Option<seq<byte>>> {
    var (assembly, message) := AcceptSpec(c.reassembly, r);
    var c1 := c.(reassembly := assembly);
    match message
    case Err(reason) => Fail(c1, reason)
    case Ok(None) => Out(c1, Ok(None))
    case Ok(Some(m)) =>
      if m.payload == [] then Fail(c1, Malformed) else Out(c1.(peerTurn := false), Ok(Some(m.payload)))
  }

  // ---- Closing ---------------------------------------------------------

  function Eof(c: Core): Out<()> {
    if c.closed then Fail(c, SequenceViolation)
    else if c.reassembly.failed then Fail(CloseState(c), SequenceViolation)
    else if c.reassembly.active.Some? then
      Fail(CloseState(c.(reassembly := c.reassembly.(failed := true))), Malformed)
    else Fail(CloseState(c), PeerClosed)
  }

  /** A Close in either direction keeps the session hash, unlike a failure. */
  function Closed(c: Core): Core {
    c.(closed := true, transport := None, handshake := None, reassembly := c.reassembly.(active := None))
  }

  function ReadClose(c: Core, frame: Frame): Out<Closing> {
    if !c.sentFinished || !c.gotFinished then Fail(c, SequenceViolation)
    else
      var read := ReadRecord(c, frame);
      match read.result
      case Err(e) => Out(read.core, Err(e))
      case Ok(r) =>
        match ValidateComplete(r, RecordKind.Close)
        case Err(reason) => Fail(read.core, reason)
        case Ok(_) =>
          match ParseClose(r.data)
          case Err(reason) => Fail(read.core, reason)
          case Ok(close) => Out(Closed(read.core), Ok(Closing(close.0, close.1)))
  }

  function WriteClose(c: Core, reason: CloseReason, handoff: Handoff): Out<Frame> {
    var closing := Closing(reason, ConservativeMax(c.handoff, handoff));
    ClosePlainLength(closing);
    if !Fits(c, 1, CLOSE_RECORD_LEN, false) then LimitError(c, closing.handoff)
    else if !Usable(c) then Fail(c, SequenceViolation)
    else Out(Closed(Sent(c, 1, CLOSE_RECORD_LEN)), Ok(SealFrame(c.transport.value, Plain(CloseRecord(closing)))))
  }

  function ValidateBinding(c: Core, generation: u64, epoch: u64): Out<()> {
    if generation != c.binding.generation || epoch != c.binding.epoch then Fail(CloseState(c), BindingMismatch)
    else Out(c, Ok(()))
  }

  // ---- The two roles ---------------------------------------------------

  function NewTarget(binding: SessionBinding, psk: Bytes32): Result<Core, CloseReason> {
    NewCore(binding, psk, true, FIRST_OPEN_BYTES, true)
  }

  function TargetWriteM1(c: Core): Out<Frame> {
    Finish(WriteHandshake(c, NoHash()))
  }

  function TargetReadM2(c: Core, frame: Frame): Out<()> {
    var read := ReadHandshake(c, frame);
    Finish(if read.result.Err? then read else FinishHandshake(read.core))
  }

  function TargetWriteFinished(c: Core): Out<Frame> {
    Finish(WriteFinished(c, TARGET_ROLE))
  }

  function TargetReadFinished(c: Core, frame: Frame): Out<()> {
    Finish(if !c.sentFinished then Fail(c, SequenceViolation) else ReadFinished(c, frame, BROKER_ROLE))
  }

  /** The hand-off flag is raised as soon as a whole application is out, and
      the first one widens the inbound cap. */
  function TargetReadApplication(c: Core, frame: Frame): Out<Option<seq<byte>>> {
    var read := ReadApplication(c, frame);
    if read.result.Ok? && read.result.value.Some? then
      var c1 := read.core.(handoff := HandoffPossibleOrConfirmed);
      if c1.firstApplication then Out(c1, read.result)
      else
        var c2 := c1.(firstApplication := true);
        if c2.reassembly.failed || c2.reassembly.active.Some? then Fail(c2, SequenceViolation)
        else Out(c2.(reassembly := c2.reassembly.(cap := REQUEST_BYTES)), read.result)
    else Finish(read)
  }

  function TargetRespond(c: Core, payload: seq<byte>): Out<seq<Frame>> {
    Finish(if !c.firstApplication then Fail(c, SequenceViolation) else WriteApplication(c, payload, RESPONSE_BYTES))
  }

  function NewBroker(binding: SessionBinding, psk: Bytes32): Result<Core, CloseReason> {
    NewCore(binding, psk, false, RESPONSE_BYTES, false)
  }

  function BrokerAnswerM1(c: Core, frame: Frame, hash: Bytes32): Out<Frame> {
    var read := ReadHandshake(c, frame);
    if read.result.Err? then Finish(Out(read.core, Err(read.result.error)))
    else
      var wrote := WriteHandshake(read.core, hash);
      if wrote.result.Err? then Finish(wrote)
      else
        var done := FinishHandshake(wrote.core);
        Finish(Out(done.core, if done.result.Err? then Err(done.result.error) else wrote.result))
  }

  function BrokerWriteFinished(c: Core): Out<Frame> {
    Finish(if !c.gotFinished then Fail(c, SequenceViolation) else WriteFinished(c, BROKER_ROLE))
  }

  function BrokerReadFinished(c: Core, frame: Frame): Out<()> {
    Finish(ReadFinished(c, frame, TARGET_ROLE))
  }

  /** A whole message on the wire may have been handed off. */
  function Committed(out: Out<seq<Frame>>): Out<seq<Frame>> {
    if out.result.Ok? then out.(core := out.core.(handoff := HandoffPossibleOrConfirmed)) else out
  }

  function BrokerOpen(c: Core, payload: seq<byte>): Out<seq<Frame>> {
    Finish(Committed(
      if c.firstApplication || payload == [] then Fail(c, SequenceViolation)
      else if |payload| > FIRST_OPEN_BYTES then Fail(c, Oversize)
      else WriteApplication(c.(firstApplication := true), payload, REQUEST_BYTES)))
  }

  function BrokerRequest(c: Core, payload: seq<byte>): Out<seq<Frame>> {
    Finish(Committed(
      if !c.firstApplication then Fail(c, SequenceViolation) else WriteApplication(c, payload, REQUEST_BYTES)))
  }

  function BrokerReadResponse(c: Core, frame: Frame): Out<Option<seq<byte>>> {
    Finish(ReadApplication(c, frame))
  }

  // ---- Either role -----------------------------------------------------

  function RoleWriteClose(c: Core, reason: CloseReason, handoff: Handoff): Out<Frame> {
    Finish(WriteClose(c, reason, handoff))
  }

  function RoleReadClose(c: Core, frame: Frame): Out<Closing> {
    Finish(ReadClose(c, frame))
  }

  datatype Role = Target | Broker

  /** The public calls, arguments chosen by whoever owns the session. */
  datatype Call =
    | WriteHello
    | ReadHello(frame: Frame, hash: Bytes32)
    | SendFinished
    | RecvFinished(frame: Frame)
    | Send(payload: seq<byte>, opening: bool)
    | Recv(frame: Frame)
    | SendClose(reason: CloseReason, handoff: Handoff)
    | RecvClose(frame: Frame)
    | EndOfStream
    | CheckBinding(generation: u64, epoch: u64)

  /** What a call leaves behind, puts on the wire and delivers. */
  datatype Effect = Effect(core: Core, frames: seq<Frame>, delivered: Option<seq<byte>>, failure: Option<Failure>)

  function Failed<T>(out: Out<T>): Effect
    requires out.result.Err?
  {
    var e := out.result.error;
    Effect(out.core, if e.closeFrame.Some? then [e.closeFrame.value] else [], None, Some(e))
  }

  function Silent<T>(out: Out<T>): Effect {
    if out.result.Err? then Failed(out) else Effect(out.core, [], None, None)
  }

  function OneFrame(out: Out<Frame>): Effect {
    if out.result.Err? then Failed(out) else Effect(out.core, [out.result.value], None, None)
  }

  function ManyFrames(out: Out<seq<Frame>>): Effect {
    if out.result.Err? then Failed(out) else Effect(out.core, out.result.value, None, None)
  }

  function Delivers(out: Out<Option<seq<byte>>>): Effect {
    if out.result.Err? then Failed(out) else Effect(out.core, [], out.result.value, None)
  }

  function Do(role: Role, c: Core, call: Call): Effect {
    match call
    case WriteHello => if role.Target? then OneFrame(TargetWriteM1(c)) else Effect(c, [], None, None)
    case ReadHello(frame, hash) =>
      if role.Target? then Silent(TargetReadM2(c, frame)) else OneFrame(BrokerAnswerM1(c, frame, hash))
    case SendFinished => OneFrame(if role.Target? then TargetWriteFinished(c) else BrokerWriteFinished(c))
    case RecvFinished(frame) =>
      Silent(if role.Target? then TargetReadFinished(c, frame) else BrokerReadFinished(c, frame))
    case Send(payload, opening) =>
      ManyFrames(if role.Target? then TargetRespond(c, payload)
                 else if opening then BrokerOpen(c, payload) else BrokerRequest(c, payload))
    case Recv(frame) =>
      Delivers(if role.Target? then TargetReadApplication(c, frame) else BrokerReadResponse(c, frame))
    case SendClose(reason, handoff) => OneFrame(RoleWriteClose(c, reason, handoff))
    case RecvClose(frame) => Silent(RoleReadClose(c, frame))
    case EndOfStream => Silent(Eof(c))
    case CheckBinding(generation, epoch) => Silent(ValidateBinding(c, generation, epoch))
  }
}
