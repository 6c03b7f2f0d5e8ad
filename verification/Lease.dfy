/** The heartbeat lease that follows the bootstrap: one request and one reply
    at a time, counters that only grow, and the same quotas and reserve for one
    last Close as a session. */
module Lease {
  import opened Common
  import opened Terms
  import opened Payloads
  import opened Records
  import opened Noise
  import opened Session

  const REQUEST_ROLE: byte := 1
  const REPLY_ROLE: byte := 2

  datatype LeaseState = LeaseState(
    transport: Option<Transport>,
    binding: LeaseBinding,
    closed: bool,
    sentRecords: nat,
    sentPlaintext: nat,
    receivedRecords: nat,
    receivedPlaintext: nat,
    pending: Option<u64>,
    last: u64)

  datatype Done<+T> = Done(state: LeaseState, result: Result<T, Failure>)

  function Deny<T>(s: LeaseState, reason: CloseReason): Done<T> {
    Done(s, Err(Plainly(reason)))
  }

  function Shut(s: LeaseState): LeaseState {
    s.(closed := true, transport := None)
  }

  function Settle<T>(done: Done<T>): Done<T> {
    if done.result.Err? then done.(state := Shut(done.state)) else done
  }

  predicate Alive(s: LeaseState) {
    !s.closed && s.transport.Some?
  }

  predicate HasRoom(s: LeaseState, bytes: nat, reserveClose: bool) {
    && s.sentRecords + 1 + (if reserveClose then 1 else 0) < RECORD_LIMIT
    && s.sentPlaintext + bytes + (if reserveClose then CLOSE_RECORD_LEN else 0) < BYTE_LIMIT
  }

  function CountSent(s: LeaseState, bytes: nat): LeaseState
    requires s.transport.Some?
  {
    s.(transport := Some(AfterSeal(s.transport.value)),
       sentRecords := s.sentRecords + 1, sentPlaintext := s.sentPlaintext + bytes)
  }

  function LimitClosing(): Closing {
    Closing(RecordLimit, NotHandedOff)
  }

  /** A limit was hit: one last Close if it still fits, and the end. */
  function LeaseLimit<T>(s: LeaseState): (d: Done<T>)
    ensures d.result.Err? && d.result.error.reason == RecordLimit
    ensures d.state.closed && d.state.transport.None?
  {
    ClosePlainLength(LimitClosing());
    if HasRoom(s, CLOSE_RECORD_LEN, false) && Alive(s) then
      var frame := SealFrame(s.transport.value, Plain(CloseRecord(LimitClosing())));
      Done(Shut(CountSent(s, CLOSE_RECORD_LEN)), Err(Failure(RecordLimit, None, Some(frame))))
    else Done(Shut(s), Err(Plainly(RecordLimit)))
  }

  function SealRecord(s: LeaseState, r: Record): Done<Frame>
    requires |r.data| <= RECORD_DATA_MAX
  {
    PlainFacts(r);
    if !HasRoom(s, RECORD_HEADER_LEN + |r.data|, !r.kind.Close?) then LeaseLimit(s)
    else if !Alive(s) then Deny(s, SequenceViolation)
    else Done(CountSent(s, RECORD_HEADER_LEN + |r.data|), Ok(SealFrame(s.transport.value, Plain(r))))
  }

  function Unseal(s: LeaseState, frame: Frame): Done<seq<byte>> {
    if !Alive(s) then Deny(s, SequenceViolation)
    else if !Opens(s.transport.value, frame) then Deny(s, AuthenticationFailed)
    else
      var s1 := s.(transport := Some(AfterOpen(s.transport.value)));
      if s.receivedRecords + 1 >= RECORD_LIMIT || s.receivedPlaintext + |frame.plaintext| >= BYTE_LIMIT
      then LeaseLimit(s1)
      else Done(s1.(receivedRecords := s.receivedRecords + 1,
                    receivedPlaintext := s.receivedPlaintext + |frame.plaintext|), Ok(frame.plaintext))
  }

  function OpenRecord(s: LeaseState, frame: Frame): Done<Record> {
    var unsealed := Unseal(s, frame);
    match unsealed.result
    case Err(e) => Done(unsealed.state, Err(e))
    case Ok(plain) =>
      match DecodeRecord(plain)
      case Err(reason) => Deny(unsealed.state, reason)
      case Ok(r) => Done(unsealed.state, Ok(r))
  }

  function BeatRecord(role: byte, binding: LeaseBinding, counter: u64): (r: Record)
    requires 1 <= role <= 2 && counter > 0
    ensures |r.data| <= 200 && r.kind.Heartbeat?
  {
    HeartbeatLength(role, binding, counter);
    var payload := HeartbeatPayload(role, binding, counter).value;
    Record(Heartbeat, true, true, |payload|, 0, payload)
  }

  function WriteHeartbeat(s: LeaseState, role: byte, counter: u64): Done<Frame> {
    match HeartbeatPayload(role, s.binding, counter)
    case Err(reason) => Deny(s, reason)
    case Ok(_) => SealRecord(s, BeatRecord(role, s.binding, counter))
  }

  function ReadHeartbeat(s: LeaseState, frame: Frame, role: byte): Done<u64> {
    var read := OpenRecord(s, frame);
    match read.result
    case Err(e) => Done(read.state, Err(e))
    case Ok(r) =>
      if r.kind.Close? then LeasePeerClose(read.state, r)
      else
        match ValidateComplete(r, Heartbeat)
        case Err(reason) => Deny(read.state, reason)
        case Ok(_) =>
          match ParseHeartbeat(r.data, role, read.state.binding)
          case Err(reason) => Deny(read.state, reason)
          case Ok(counter) => Done(read.state, Ok(counter))
  }

  function LeasePeerClose<T>(s: LeaseState, r: Record): Done<T> {
    match ValidateComplete(r, RecordKind.Close)
    case Err(reason) => Deny(s, reason)
    case Ok(_) =>
      match ParseClose(r.data)
      case Err(reason) => Deny(s, reason)
      case Ok(close) => Done(s, Err(Failure(PeerClosed, Some(Closing(close.0, close.1)), None)))
  }

  // ---- The public calls ------------------------------------------------

  function ReadRequest(s: LeaseState, frame: Frame): Done<u64> {
    Settle(
      if s.pending.Some? then Deny(s, SequenceViolation)
      else
        var read := ReadHeartbeat(s, frame, REQUEST_ROLE);
        if read.result.Err? then read
        else if read.result.value <= read.state.last then Deny(read.state, SequenceViolation)
        else read.(state := read.state.(pending := Some(read.result.value))))
  }

  function WriteReply(s: LeaseState, counter: u64): Done<Frame> {
    Settle(
      if s.pending != Some(counter) then Deny(s, SequenceViolation)
      else
        var wrote := WriteHeartbeat(s, REPLY_ROLE, counter);
        if wrote.result.Err? then wrote
        else wrote.(state := wrote.state.(pending := None, last := counter)))
  }

  function WriteRequest(s: LeaseState, counter: u64): Done<Frame> {
    Settle(
      if s.pending.Some? || counter <= s.last then Deny(s, SequenceViolation)
      else
        var wrote := WriteHeartbeat(s, REQUEST_ROLE, counter);
        if wrote.result.Err? then wrote
        else wrote.(state := wrote.state.(pending := Some(counter))))
  }

  function ReadReply(s: LeaseState, frame: Frame): Done<u64> {
    Settle(
      var read := ReadHeartbeat(s, frame, REPLY_ROLE);
      if read.result.Err? then read
      else if read.state.pending != Some(read.result.value) then Deny(read.state, SequenceViolation)
      else read.(state := read.state.(pending := None, last := read.result.value)))
  }

  function LeaseWriteClose(s: LeaseState, reason: CloseReason, handoff: Handoff): Done<Frame> {
    var wrote := SealRecord(s, CloseRecord(Closing(reason, handoff)));
    Settle(if wrote.result.Err? then wrote else wrote.(state := Shut(wrote.state)))
  }

  function LeaseReadClose(s: LeaseState, frame: Frame): Done<Closing> {
    var read := OpenRecord(s, frame);
    Settle(
      match read.result
      case Err(e) => Done(read.state, Err(e))
      case Ok(r) =>
        match ValidateComplete(r, RecordKind.Close)
        case Err(reason) => Deny(read.state, reason)
        case Ok(_) =>
          match ParseClose(r.data)
          case Err(reason) => Deny(read.state, reason)
          case Ok(close) => Done(Shut(read.state), Ok(Closing(close.0, close.1))))
  }

  // ---- How a lease starts ----------------------------------------------

  function BindingOf(ack: BootstrapAck): LeaseBinding {
    LeaseBinding(ack.leaseId, ack.generation, ack.epoch)
  }

  function AckRecord(ack: BootstrapAck): (r: Record)
    ensures |r.data| <= 200
  {
    AckLength(ack);
    Record(Finished, true, true, |AckPayload(ack)|, 0, AckPayload(ack))
  }

  /** The Target's lease has already sent the acknowledgement. */
  function WriteAck(t: Transport, ack: BootstrapAck): (Frame, LeaseState) {
    PlainFacts(AckRecord(ack));
    var plain := Plain(AckRecord(ack));
    (SealFrame(t, plain), LeaseState(Some(AfterSeal(t)), BindingOf(ack), false, 1, |plain|, 0, 0, None, 0))
  }

  datatype Acked = Acked(ack: BootstrapAck, lease: LeaseState)

  /** The Broker's lease has already received it. */
  function ReadAck(t: Transport, binding: BootstrapBinding, hash: Bytes32, frame: Frame): Result<Acked, CloseReason> {
    if !Opens(t, frame) then Err(AuthenticationFailed)
    else
      var r :- DecodeRecord(frame.plaintext);
      var _ :- ValidateComplete(r, Finished);
      var ack :- ParseAck(r.data, binding, hash);
      Ok(Acked(ack, LeaseState(Some(AfterOpen(t)), BindingOf(ack), false, 0, 0, 1, |frame.plaintext|, None, 0)))
  }

  // ---- The objects -----------------------------------------------------

  class LeaseCore {
    var transport: Option<Transport>
    const binding: LeaseBinding
    var closed: bool
    var sentRecords: nat
    var sentPlaintext: nat
    var receivedRecords: nat
    var receivedPlaintext: nat
    var pending: Option<u64>
    var last: u64

    ghost function View(): LeaseState
      reads this
    {
      LeaseState(transport, binding, closed, sentRecords, sentPlaintext, receivedRecords, receivedPlaintext,
                 pending, last)
    }

    constructor (transport: Transport, binding: LeaseBinding, sentRecords: nat, sentPlaintext: nat,
                 receivedRecords: nat, receivedPlaintext: nat)
      ensures View() == LeaseState(Some(transport), binding, false, sentRecords, sentPlaintext,
                                   receivedRecords, receivedPlaintext, None, 0)
    {
      this.transport, this.binding, closed := Some(transport), binding, false;
      this.sentRecords, this.sentPlaintext := sentRecords, sentPlaintext;
      this.receivedRecords, this.receivedPlaintext := receivedRecords, receivedPlaintext;
      pending, last := None, 0;
    }

    method CloseState()
      modifies this
      ensures View() == Shut(old(View()))
    {
      closed := true;
      transport := None;
    }

    method LimitError() returns (e: Failure)
      modifies this
      ensures Done(View(), Err(e)) == LeaseLimit<()>(old(View()))
    {
      hide EncodeRecord, CloseRecord, Plain;
      ClosePlainLength(LimitClosing());
      var plaintext := Plain(CloseRecord(LimitClosing()));
      var closeFrame: Option<Frame> := None;
      if sentRecords + 1 < RECORD_LIMIT && sentPlaintext + |plaintext| < BYTE_LIMIT && !closed && transport.Some? {
        closeFrame := Some(SealFrame(transport.value, plaintext));
        transport := Some(AfterSeal(transport.value));
        sentRecords, sentPlaintext := sentRecords + 1, sentPlaintext + |plaintext|;
      }
      CloseState();
      e := Failure(RecordLimit, None, closeFrame);
    }

    method WriteRecord(r: Record) returns (frame: Result<Frame, Failure>)
      requires |r.data| <= RECORD_DATA_MAX
      modifies this
      ensures Done(View(), frame) == SealRecord(old(View()), r)
    {
      hide EncodeRecord, CloseRecord, Plain;
      PlainFacts(r);
      var plaintext := Plain(r);
      var nextRecords, nextBytes := sentRecords + 1, sentPlaintext + |plaintext|;
      var limitReached :=
        if r.kind.Close? then nextRecords >= RECORD_LIMIT || nextBytes >= BYTE_LIMIT
        else nextRecords + 1 >= RECORD_LIMIT || nextBytes + CLOSE_RECORD_LEN >= BYTE_LIMIT;
      if limitReached {
        var e := LimitError();
        return Err(e);
      }
      if closed || transport.None? {
        return Err(Plainly(SequenceViolation));
      }
      frame := Ok(SealFrame(transport.value, plaintext));
      transport := Some(AfterSeal(transport.value));
      sentRecords, sentPlaintext := nextRecords, nextBytes;
    }

    method DecryptCounted(frame: Frame) returns (r: Result<seq<byte>, Failure>)
      modifies this
      ensures Done(View(), r) == Unseal(old(View()), frame)
    {
      hide LeaseLimit;
      if closed || transport.None? {
        return Err(Plainly(SequenceViolation));
      }
      if !Opens(transport.value, frame) {
        return Err(Plainly(AuthenticationFailed));
      }
      transport := Some(AfterOpen(transport.value));
      var nextRecords, nextBytes := receivedRecords + 1, receivedPlaintext + |frame.plaintext|;
      if nextRecords >= RECORD_LIMIT || nextBytes >= BYTE_LIMIT {
        SameLimit(View());
        var e := LimitError();
        return Err(e);
      }
      receivedRecords, receivedPlaintext := nextRecords, nextBytes;
      r := Ok(frame.plaintext);
    }

    method ReadRecord(frame: Frame) returns (r: Result<Record, Failure>)
      modifies this
      ensures Done(View(), r) == OpenRecord(old(View()), frame)
    {
      var plain := DecryptCounted(frame);
      if plain.Err? {
        return Err(plain.error);
      }
      var record := DecodeRecord(plain.value);
      if record.Err? {
        return Err(Plainly(record.error));
      }
      r := Ok(record.value);
    }

    method WriteBeat(role: byte, counter: u64) returns (frame: Result<Frame, Failure>)
      modifies this
      ensures Done(View(), frame) == WriteHeartbeat(old(View()), role, counter)
    {
      var payload := HeartbeatPayload(role, binding, counter);
      if payload.Err? {
        return Err(Plainly(payload.error));
      }
      frame := WriteRecord(BeatRecord(role, binding, counter));
    }

    method ReadBeat(frame: Frame, role: byte) returns (r: Result<u64, Failure>)
      modifies this
      ensures Done(View(), r) == ReadHeartbeat(old(View()), frame, role)
    {
      var record := ReadRecord(frame);
      if record.Err? {
        return Err(record.error);
      }
      if record.value.kind.Close? {
        var complete := ValidateComplete(record.value, RecordKind.Close);
        if complete.Err? {
          return Err(Plainly(complete.error));
        }
        var close := ParseClose(record.value.data);
        if close.Err? {
          return Err(Plainly(close.error));
        }
        return Err(Failure(PeerClosed, Some(Closing(close.value.0, close.value.1)), None));
      }
      var complete := ValidateComplete(record.value, Heartbeat);
      if complete.Err? {
        return Err(Plainly(complete.error));
      }
      var counter := ParseHeartbeat(record.value.data, role, binding);
      if counter.Err? {
        return Err(Plainly(counter.error));
      }
      r := Ok(counter.value);
    }

    method WriteClose(reason: CloseReason, handoff: Handoff) returns (r: Result<Frame, Failure>)
      modifies this
      ensures Done(View(), r) == LeaseWriteClose(old(View()), reason, handoff)
    {
      hide SealRecord;
      r := WriteRecord(CloseRecord(Closing(reason, handoff)));
      CloseState();
    }

    method ReadClose(frame: Frame) returns (r: Result<Closing, Failure>)
      modifies this
      ensures Done(View(), r) == LeaseReadClose(old(View()), frame)
    {
      hide OpenRecord;
      var record := ReadRecord(frame);
      if record.Err? {
        CloseState();
        return Err(record.error);
      }
      var complete := ValidateComplete(record.value, RecordKind.Close);
      if complete.Err? {
        CloseState();
        return Err(Plainly(complete.error));
      }
      var close := ParseClose(record.value.data);
      CloseState();
      if close.Err? {
        return Err(Plainly(close.error));
      }
      r := Ok(Closing(close.value.0, close.value.1));
    }
  }

  lemma SameLimit(s: LeaseState)
    ensures LeaseLimit<()>(s).state == LeaseLimit<seq<byte>>(s).state
    ensures LeaseLimit<()>(s).result.Err? && LeaseLimit<seq<byte>>(s).result.Err?
    ensures LeaseLimit<()>(s).result.error == LeaseLimit<seq<byte>>(s).result.error
  {
  }

  /** The Target's end: it answers one request at a time. */
  class TargetLease {
    const core: LeaseCore

    constructor (core: LeaseCore)
      ensures this.core == core
    {
      this.core := core;
    }

    method ReadHeartbeatRequest(frame: Frame) returns (r: Result<u64, Failure>)
      modifies core
      ensures Done(core.View(), r) == ReadRequest(old(core.View()), frame)
    {
      hide ReadHeartbeat;
      if core.pending.Some? {
        core.CloseState();
        return Err(Plainly(SequenceViolation));
      }
      r := core.ReadBeat(frame, REQUEST_ROLE);
      if r.Ok? && r.value <= core.last {
        r := Err(Plainly(SequenceViolation));
      }
      if r.Ok? {
        core.pending := Some(r.value);
      } else {
        core.CloseState();
      }
    }

    method WriteHeartbeatReply(counter: u64) returns (r: Result<Frame, Failure>)
      modifies core
      ensures Done(core.View(), r) == WriteReply(old(core.View()), counter)
    {
      hide WriteHeartbeat;
      if core.pending != Some(counter) {
        core.CloseState();
        return Err(Plainly(SequenceViolation));
      }
      r := core.WriteBeat(REPLY_ROLE, counter);
      if r.Ok? {
        core.pending, core.last := None, counter;
      } else {
        core.CloseState();
      }
    }
  }

  /** The Broker's end: it asks with a growing counter. */
  class BrokerLease {
    const core: LeaseCore

    constructor (core: LeaseCore)
      ensures this.core == core
    {
      this.core := core;
    }

    method WriteHeartbeatRequest(counter: u64) returns (r: Result<Frame, Failure>)
      modifies core
      ensures Done(core.View(), r) == WriteRequest(old(core.View()), counter)
    {
      hide WriteHeartbeat;
      if core.pending.Some? || counter <= core.last {
        core.CloseState();
        return Err(Plainly(SequenceViolation));
      }
      r := core.WriteBeat(REQUEST_ROLE, counter);
      if r.Ok? {
        core.pending := Some(counter);
      } else {
        core.CloseState();
      }
    }

    method ReadHeartbeatReply(frame: Frame) returns (r: Result<u64, Failure>)
      modifies core
      ensures Done(core.View(), r) == ReadReply(old(core.View()), frame)
    {
      hide ReadHeartbeat;
      r := core.ReadBeat(frame, REPLY_ROLE);
      if r.Ok? && core.pending != Some(r.value) {
        r := Err(Plainly(SequenceViolation));
      }
      if r.Ok? {
        core.pending, core.last := None, r.value;
      } else {
        core.CloseState();
      }
    }
  }
}
