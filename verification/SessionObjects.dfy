/** The session core and its two roles as the mutable objects they are.  Every
    method is proved to leave the state, and return the result, that the
    function of the same name in `Session` computes from the old state. */
module SessionObjects {
  import opened Common
  import opened Terms
  import opened Payloads
  import opened Records
  import opened Noise
  import S = Session

  class SessionCore {
    const binding: SessionBinding
    var handshake: Option<Handshake>
    var transport: Option<Transport>
    var sessionHash: Option<Bytes32>
    const reassembly: RecordReassembler
    var sentFinished: bool
    var gotFinished: bool
    var peerTurn: bool
    var firstApplication: bool
    var closed: bool
    var sentRecords: nat
    var sentPlaintext: nat
    var receivedRecords: nat
    var receivedPlaintext: nat
    var handoff: Handoff

    ghost function View(): S.Core
      reads this, reassembly
    {
      S.Core(binding, handshake, transport, sessionHash, reassembly.View(), sentFinished, gotFinished, peerTurn,
             firstApplication, closed, sentRecords, sentPlaintext, receivedRecords, receivedPlaintext, handoff)
    }

    constructor (binding: SessionBinding, psk: Bytes32, initiator: bool, cap: nat, peerTurn: bool)
      requires ValidGeneration(binding.generation) && ValidGeneration(binding.epoch)
      ensures S.NewCore(binding, psk, initiator, cap, peerTurn) == Ok(View())
      ensures fresh(reassembly)
    {
      this.binding := binding;
      handshake := Some(NewHandshake(initiator, Context(binding, psk)));
      transport, sessionHash := None, None;
      reassembly := new RecordReassembler(cap);
      sentFinished, gotFinished, firstApplication, closed := false, false, false, false;
      this.peerTurn := peerTurn;
      sentRecords, sentPlaintext, receivedRecords, receivedPlaintext := 0, 0, 0, 0;
      handoff := NotHandedOff;
    }

    method CloseState()
      modifies this, reassembly
      ensures View() == S.CloseState(old(View()))
    {
      closed := true;
      transport := None;
      handshake := None;
      reassembly.Clear();
      sessionHash := None;
    }

    /** What both kinds of Close do to the state. */
    method MarkClosed()
      modifies this, reassembly
      ensures View() == S.Closed(old(View()))
    {
      closed := true;
      transport := None;
      handshake := None;
      reassembly.Clear();
    }

    method WriteHandshake(hash: Bytes32) returns (r: Result<Frame, S.Failure>)
      modifies this
      ensures S.Out(View(), r) == S.WriteHandshake(old(View()), hash)
    {
      if handshake.None? {
        return Err(S.Plainly(SequenceViolation));
      }
      var wrote := WriteMessage(handshake.value, [], hash);
      if wrote.Err? {
        return Err(S.Plainly(wrote.error));
      }
      handshake := Some(wrote.value.next);
      r := Ok(wrote.value.frame);
    }

    method ReadHandshake(frame: Frame) returns (r: Result<(), S.Failure>)
      modifies this
      ensures S.Out(View(), r) == S.ReadHandshake(old(View()), frame)
    {
      if handshake.None? {
        return Err(S.Plainly(SequenceViolation));
      }
      var read := ReadMessage(handshake.value, frame);
      if read.Err? {
        return Err(S.Plainly(read.error));
      }
      handshake := Some(read.value.next);
      if read.value.payload != [] {
        return Err(S.Plainly(AuthenticationFailed));
      }
      r := Ok(());
    }

    method FinishHandshake() returns (r: Result<(), S.Failure>)
      modifies this
      ensures S.Out(View(), r) == S.FinishHandshake(old(View()))
    {
      if handshake.None? {
        return Err(S.Plainly(SequenceViolation));
      }
      var taken := handshake.value;
      handshake := None;
      sessionHash := Some(taken.hash);
      var into := IntoTransport(taken);
      if into.Err? {
        return Err(S.Plainly(into.error));
      }
      transport := Some(into.value);
      r := Ok(());
    }

    /** The transport, if the core is still open. */
    method Encrypt(plaintext: seq<byte>) returns (r: Result<Frame, S.Failure>)
      requires |plaintext| + TAG_LEN <= 65_535
      modifies this`transport
      ensures !S.Usable(old(View())) ==> r == Err(S.Plainly(SequenceViolation)) && View() == old(View())
      ensures S.Usable(old(View())) ==>
                && r == Ok(SealFrame(old(View()).transport.value, plaintext))
                && View() == S.AfterSealing(old(View()))
    {
      if closed || transport.None? {
        return Err(S.Plainly(SequenceViolation));
      }
      r := Ok(SealFrame(transport.value, plaintext));
      transport := Some(AfterSeal(transport.value));
    }

    method SendUsageAfter(records: nat, bytes: nat, reserveClose: bool) returns (usage: Option<(nat, nat)>)
      ensures usage == if S.Fits(View(), records, bytes, reserveClose)
                       then Some((sentRecords + records, sentPlaintext + bytes)) else None
    {
      var nextRecords := sentRecords + records;
      var nextBytes := sentPlaintext + bytes;
      var recordsWithReserve, bytesWithReserve := nextRecords, nextBytes;
      if reserveClose {
        S.ClosePlainLength(S.Closing(RecordLimit, handoff));
        var closeLen := |Plain(S.CloseRecord(S.Closing(RecordLimit, handoff)))|;
        recordsWithReserve := nextRecords + 1;
        bytesWithReserve := nextBytes + closeLen;
      }
      if recordsWithReserve >= RECORD_LIMIT || bytesWithReserve >= BYTE_LIMIT {
        return None;
      }
      usage := Some((nextRecords, nextBytes));
    }

    /** Seals one plaintext whose counts were found to fit, and counts it. */
    method EncryptAndCount(plaintext: seq<byte>) returns (r: Result<Frame, S.Failure>)
      requires |plaintext| + TAG_LEN <= 65_535
      modifies this
      ensures !S.Usable(old(View())) ==> r == Err(S.Plainly(SequenceViolation)) && View() == old(View())
      ensures S.Usable(old(View())) ==>
                && r == Ok(SealFrame(old(View()).transport.value, plaintext))
                && View() == S.AfterSealing(S.Sent(old(View()), 1, |plaintext|))
    {
      r := Encrypt(plaintext);
      if r.Ok? {
        sentRecords, sentPlaintext := sentRecords + 1, sentPlaintext + |plaintext|;
      }
    }

    method RecordLimitError(h: Handoff) returns (e: S.Failure)
      modifies this, reassembly
      ensures S.Limited(View(), e) == S.AtLimit(old(View()), h)
    {
      hide EncodeRecord, Plain, S.CloseRecord, S.CloseState, S.Sent, S.AfterSealing;
      ghost var before := View();
      S.ClosePlainLength(S.Closing(RecordLimit, h));
      var plaintext := Plain(S.CloseRecord(S.Closing(RecordLimit, h)));
      var closeFrame: Option<Frame> := None;
      var usage := SendUsageAfter(1, |plaintext|, false);
      if usage.Some? {
        var frame := EncryptAndCount(plaintext);
        if frame.Ok? {
          S.ClosingForgetsSealing(before, 1, S.CLOSE_RECORD_LEN);
          closeFrame := Some(frame.value);
        }
      }
      CloseState();
      e := S.Failure(RecordLimit, None, closeFrame);
    }

    method EncryptCounted(record: Record) returns (r: Result<Frame, S.Failure>)
      requires |record.data| <= RECORD_DATA_MAX
      modifies this, reassembly
      ensures S.Out(View(), r) == S.EncryptCounted(old(View()), record)
    {
      hide EncodeRecord, Plain, S.AtLimit;
      PlainFacts(record);
      var plaintext := Plain(record);
      var usage := SendUsageAfter(1, |plaintext|, true);
      if usage.None? {
        var e := RecordLimitError(handoff);
        return Err(e);
      }
      r := EncryptAndCount(plaintext);
    }

    method WriteRecord(kind: RecordKind, payload: seq<byte>) returns (r: Result<Frame, S.Failure>)
      modifies this, reassembly
      ensures S.Out(View(), r) == S.WriteRecord(old(View()), kind, payload)
    {
      var record := CompleteRecord(kind, payload);
      if record.Err? || |record.value.data| > RECORD_DATA_MAX {
        return Err(S.Plainly(Oversize));
      }
      r := EncryptCounted(record.value);
    }

    method DecryptCounted(frame: Frame) returns (r: Result<seq<byte>, S.Failure>)
      modifies this, reassembly
      ensures S.Out(View(), r) == S.DecryptCounted(old(View()), frame)
    {
      if closed || transport.None? {
        return Err(S.Plainly(SequenceViolation));
      }
      if !Opens(transport.value, frame) {
        return Err(S.Plainly(AuthenticationFailed));
      }
      transport := Some(AfterOpen(transport.value));
      var nextRecords := receivedRecords + 1;
      var nextBytes := receivedPlaintext + |frame.plaintext|;
      if nextRecords >= RECORD_LIMIT || nextBytes >= BYTE_LIMIT {
        var e := RecordLimitError(handoff);
        return Err(e);
      }
      receivedRecords, receivedPlaintext := nextRecords, nextBytes;
      r := Ok(frame.plaintext);
    }

    method ReadRecord(frame: Frame) returns (r: Result<Record, S.Failure>)
      modifies this, reassembly
      ensures S.Out(View(), r) == S.ReadRecord(old(View()), frame)
    {
      var plain := DecryptCounted(frame);
      if plain.Err? {
        return Err(plain.error);
      }
      var record := DecodeRecord(plain.value);
      if record.Err? {
        return Err(S.Plainly(record.error));
      }
      r := Ok(record.value);
    }

    method WriteFinished(role: byte) returns (r: Result<Frame, S.Failure>)
      modifies this, reassembly
      ensures S.Out(View(), r) == S.WriteFinished(old(View()), role)
    {
      if sentFinished || sessionHash.None? {
        return Err(S.Plainly(SequenceViolation));
      }
      r := WriteRecord(Finished, FinishedPayload(binding, role, sessionHash.value));
      if r.Ok? {
        sentFinished := true;
      }
    }

    method ReadFinished(frame: Frame, role: byte) returns (r: Result<(), S.Failure>)
      modifies this, reassembly
      ensures S.Out(View(), r) == S.ReadFinished(old(View()), frame, role)
    {
      if gotFinished {
        closed := true;
        return Err(S.Plainly(AuthenticationFailed));
      }
      if sessionHash.None? {
        return Err(S.Plainly(SequenceViolation));
      }
      var expectedHash := sessionHash.value;
      var record := ReadRecord(frame);
      if record.Err? {
        return Err(record.error);
      }
      var complete := ValidateComplete(record.value, Finished);
      if complete.Err? {
        return Err(S.Plainly(complete.error));
      }
      var got := ParseFinished(record.value.data, binding, expectedHash);
      if got.Err? {
        return Err(S.Plainly(got.error));
      }
      if got.value != role {
        return Err(S.Plainly(AuthenticationFailed));
      }
      gotFinished := true;
      r := Ok(());
    }

    /** Seals every plaintext of a message, at consecutive nonces. */
    method EncryptAll(plaintexts: seq<seq<byte>>) returns (r: Result<seq<Frame>, S.Failure>)
      requires plaintexts != [] && Sealable(plaintexts)
      modifies this`transport
      ensures !S.Usable(old(View())) ==> r == Err(S.Plainly(SequenceViolation)) && transport == old(transport)
      ensures S.Usable(old(View())) ==>
                && r == Ok(SealAll(old(transport).value, plaintexts))
                && transport == Some(old(transport).value.(sendNonce := old(transport).value.sendNonce + |plaintexts|))
    {
      ghost var t := transport;
      ghost var usable := !closed && transport.Some?;
      var frames: seq<Frame> := [];
      for i := 0 to |plaintexts|
        invariant !usable ==> i == 0 && transport == t
        invariant usable ==>
                    && transport == Some(t.value.(sendNonce := t.value.sendNonce + i))
                    && frames + SealAll(transport.value, plaintexts[i..]) == SealAll(t.value, plaintexts)
      {
        assert plaintexts[i..][1..] == plaintexts[i + 1..];
        var frame := Encrypt(plaintexts[i]);
        if frame.Err? {
          return Err(frame.error);
        }
        Assoc(frames, [frame.value], SealAll(transport.value, plaintexts[i + 1..]));
        frames := frames + [frame.value];
      }
      assert plaintexts[|plaintexts|..] == [];
      assert frames + [] == frames;
      r := Ok(frames);
    }

    method WriteApplication(payload: seq<byte>, cap: nat) returns (r: Result<seq<Frame>, S.Failure>)
      requires cap <= S.RESPONSE_BYTES
      modifies this, reassembly
      ensures S.Out(View(), r) == S.WriteApplication(old(View()), payload, cap)
    {
      hide S.AtLimit, SealAll;
      if !sentFinished || !gotFinished || peerTurn || payload == [] {
        return Err(S.Plainly(SequenceViolation));
      }
      if |payload| > cap {
        return Err(S.Plainly(Oversize));
      }
      var rs := FragmentsFrom(Application, payload, 0);
      var plaintexts := Plains(rs);
      S.FragmentsFitFrames(rs);
      var usage := SendUsageAfter(|plaintexts|, Volume(plaintexts), true);
      if usage.None? {
        var e := RecordLimitError(handoff);
        return Err(e);
      }
      var frames := EncryptAll(plaintexts);
      if frames.Err? {
        return Err(frames.error);
      }
      sentRecords, sentPlaintext := usage.value.0, usage.value.1;
      peerTurn := true;
      r := Ok(frames.value);
    }

    method ReadApplication(frame: Frame) returns (r: Result<Option<seq<byte>>, S.Failure>)
      modifies this, reassembly
      ensures S.Out(View(), r) == S.ReadApplication(old(View()), frame)
    {
      if !sentFinished || !gotFinished {
        return Err(S.Plainly(SequenceViolation));
      }
      var record := ReadRecord(frame);
      if record.Err? {
        return Err(record.error);
      }
      if record.value.kind.Close? {
        var complete := ValidateComplete(record.value, RecordKind.Close);
        if complete.Err? {
          return Err(S.Plainly(complete.error));
        }
        var close := ParseClose(record.value.data);
        if close.Err? {
          return Err(S.Plainly(close.error));
        }
        closed := true;
        return Err(S.Failure(PeerClosed, Some(S.Closing(close.value.0, close.value.1)), None));
      }
      if !peerTurn {
        return Err(S.Plainly(SequenceViolation));
      }
      if !record.value.kind.Application? {
        return Err(S.Plainly(SequenceViolation));
      }
      var message := reassembly.Accept(record.value);
      if message.Err? {
        return Err(S.Plainly(message.error));
      }
      if message.value.None? {
        return Ok(None);
      }
      if message.value.value.payload == [] {
        return Err(S.Plainly(Malformed));
      }
      peerTurn := false;
      r := Ok(Some(message.value.value.payload));
    }

    method Eof() returns (r: Result<(), S.Failure>)
      modifies this, reassembly
      ensures S.Out(View(), r) == S.Eof(old(View()))
    {
      if closed {
        return Err(S.Plainly(SequenceViolation));
      }
      var end := reassembly.Eof();
      CloseState();
      r := Err(S.Plainly(if end.Err? then end.error else PeerClosed));
    }

    method ReadClose(frame: Frame) returns (r: Result<S.Closing, S.Failure>)
      modifies this, reassembly
      ensures S.Out(View(), r) == S.ReadClose(old(View()), frame)
    {
      if !sentFinished || !gotFinished {
        return Err(S.Plainly(SequenceViolation));
      }
      var record := ReadRecord(frame);
      if record.Err? {
        return Err(record.error);
      }
      var complete := ValidateComplete(record.value, RecordKind.Close);
      if complete.Err? {
        return Err(S.Plainly(complete.error));
      }
      var close := ParseClose(record.value.data);
      if close.Err? {
        return Err(S.Plainly(close.error));
      }
      MarkClosed();
      r := Ok(S.Closing(close.value.0, close.value.1));
    }

    method WriteClose(reason: CloseReason, h: Handoff) returns (r: Result<Frame, S.Failure>)
      modifies this, reassembly
      ensures S.Out(View(), r) == S.WriteClose(old(View()), reason, h)
    {
      hide EncodeRecord, Plain, S.CloseRecord, S.AtLimit, S.Closed, S.Sent, S.AfterSealing;
      var closing := S.Closing(reason, ConservativeMax(handoff, h));
      S.ClosePlainLength(closing);
      var plaintext := Plain(S.CloseRecord(closing));
      var usage := SendUsageAfter(1, |plaintext|, false);
      if usage.None? {
        var e := RecordLimitError(closing.handoff);
        return Err(e);
      }
      ghost var before := View();
      r := EncryptAndCount(plaintext);
      if r.Err? {
        return;
      }
      S.ClosingForgetsSealing(before, 1, S.CLOSE_RECORD_LEN);
      MarkClosed();
    }

    method ValidateBinding(generation: u64, epoch: u64) returns (r: Result<(), S.Failure>)
      modifies this, reassembly
      ensures S.Out(View(), r) == S.ValidateBinding(old(View()), generation, epoch)
    {
      if generation != binding.generation || epoch != binding.epoch {
        CloseState();
        return Err(S.Plainly(BindingMismatch));
      }
      r := Ok(());
    }
  }

  class TargetSession {
    const core: SessionCore

    constructor (binding: SessionBinding, pbs: Bytes32)
      requires ValidGeneration(binding.generation) && ValidGeneration(binding.epoch)
      ensures S.NewTarget(binding, pbs) == Ok(core.View())
      ensures fresh(core) && fresh(core.reassembly)
    {
      core := new SessionCore(binding, pbs, true, S.FIRST_OPEN_BYTES, true);
    }

    method WriteM1() returns (r: Result<Frame, S.Failure>)
      modifies core, core.reassembly
      ensures S.Out(core.View(), r) == S.TargetWriteM1(old(core.View()))
    {
      r := core.WriteHandshake(NoHash());
      if r.Err? { core.CloseState(); }
    }

    method ReadM2(frame: Frame) returns (r: Result<(), S.Failure>)
      modifies core, core.reassembly
      ensures S.Out(core.View(), r) == S.TargetReadM2(old(core.View()), frame)
    {
      r := core.ReadHandshake(frame);
      if r.Ok? { r := core.FinishHandshake(); }
      if r.Err? { core.CloseState(); }
    }

    method WriteFinished() returns (r: Result<Frame, S.Failure>)
      modifies core, core.reassembly
      ensures S.Out(core.View(), r) == S.TargetWriteFinished(old(core.View()))
    {
      r := core.WriteFinished(S.TARGET_ROLE);
      if r.Err? { core.CloseState(); }
    }

    method ReadFinished(frame: Frame) returns (r: Result<(), S.Failure>)
      modifies core, core.reassembly
      ensures S.Out(core.View(), r) == S.TargetReadFinished(old(core.View()), frame)
    {
      if !core.sentFinished {
        r := Err(S.Plainly(SequenceViolation));
      } else {
        r := core.ReadFinished(frame, S.BROKER_ROLE);
      }
      if r.Err? { core.CloseState(); }
    }

    method ReadApplication(frame: Frame) returns (r: Result<Option<seq<byte>>, S.Failure>)
      modifies core, core.reassembly
      ensures S.Out(core.View(), r) == S.TargetReadApplication(old(core.View()), frame)
    {
      hide S.ReadApplication;
      r := core.ReadApplication(frame);
      if r.Ok? && r.value.Some? {
        core.handoff := HandoffPossibleOrConfirmed;
        if !core.firstApplication {
          core.firstApplication := true;
          var widened := core.reassembly.SetCap(S.REQUEST_BYTES);
          if widened.Err? {
            return Err(S.Plainly(widened.error));
          }
        }
      }
      if r.Err? { core.CloseState(); }
    }

    method WriteApplicationResponse(payload: seq<byte>) returns (r: Result<seq<Frame>, S.Failure>)
      modifies core, core.reassembly
      ensures S.Out(core.View(), r) == S.TargetRespond(old(core.View()), payload)
    {
      if !core.firstApplication {
        r := Err(S.Plainly(SequenceViolation));
      } else {
        r := core.WriteApplication(payload, S.RESPONSE_BYTES);
      }
      if r.Err? { core.CloseState(); }
    }

    method Eof() returns (r: Result<(), S.Failure>)
      modifies core, core.reassembly
      ensures S.Out(core.View(), r) == S.Eof(old(core.View()))
    {
      r := core.Eof();
    }

    method WriteClose(reason: CloseReason, h: Handoff) returns (r: Result<Frame, S.Failure>)
      modifies core, core.reassembly
      ensures S.Out(core.View(), r) == S.RoleWriteClose(old(core.View()), reason, h)
    {
      r := core.WriteClose(reason, h);
      if r.Err? { core.CloseState(); }
    }

    method ReadClose(frame: Frame) returns (r: Result<S.Closing, S.Failure>)
      modifies core, core.reassembly
      ensures S.Out(core.View(), r) == S.RoleReadClose(old(core.View()), frame)
    {
      r := core.ReadClose(frame);
      if r.Err? { core.CloseState(); }
    }

    method ValidateBinding(generation: u64, epoch: u64) returns (r: Result<(), S.Failure>)
      modifies core, core.reassembly
      ensures S.Out(core.View(), r) == S.ValidateBinding(old(core.View()), generation, epoch)
    {
      r := core.ValidateBinding(generation, epoch);
    }
  }

  class BrokerSession {
    const core: SessionCore

    constructor (binding: SessionBinding, pbs: Bytes32)
      requires ValidGeneration(binding.generation) && ValidGeneration(binding.epoch)
      ensures S.NewBroker(binding, pbs) == Ok(core.View())
      ensures fresh(core) && fresh(core.reassembly)
    {
      core := new SessionCore(binding, pbs, false, S.RESPONSE_BYTES, false);
    }

    method ReadM1WriteM2(frame: Frame, hash: Bytes32) returns (r: Result<Frame, S.Failure>)
      modifies core, core.reassembly
      ensures S.Out(core.View(), r) == S.BrokerAnswerM1(old(core.View()), frame, hash)
    {
      var read := core.ReadHandshake(frame);
      if read.Err? {
        r := Err(read.error);
      } else {
        r := core.WriteHandshake(hash);
        if r.Ok? {
          var done := core.FinishHandshake();
          if done.Err? { r := Err(done.error); }
        }
      }
      if r.Err? { core.CloseState(); }
    }

    method WriteFinished() returns (r: Result<Frame, S.Failure>)
      modifies core, core.reassembly
      ensures S.Out(core.View(), r) == S.BrokerWriteFinished(old(core.View()))
    {
      if !core.gotFinished {
        r := Err(S.Plainly(SequenceViolation));
      } else {
        r := core.WriteFinished(S.BROKER_ROLE);
      }
      if r.Err? { core.CloseState(); }
    }

    method ReadFinished(frame: Frame) returns (r: Result<(), S.Failure>)
      modifies core, core.reassembly
      ensures S.Out(core.View(), r) == S.BrokerReadFinished(old(core.View()), frame)
    {
      r := core.ReadFinished(frame, S.TARGET_ROLE);
      if r.Err? { core.CloseState(); }
    }

    method WriteSessionOpen(payload: seq<byte>) returns (r: Result<seq<Frame>, S.Failure>)
      modifies core, core.reassembly
      ensures S.Out(core.View(), r) == S.BrokerOpen(old(core.View()), payload)
    {
      if core.firstApplication || payload == [] {
        r := Err(S.Plainly(SequenceViolation));
      } else if |payload| > S.FIRST_OPEN_BYTES {
        r := Err(S.Plainly(Oversize));
      } else {
        core.firstApplication := true;
        r := core.WriteApplication(payload, S.REQUEST_BYTES);
      }
      if r.Ok? { core.handoff := HandoffPossibleOrConfirmed; }
      if r.Err? { core.CloseState(); }
    }

    method WriteApplicationRequest(payload: seq<byte>) returns (r: Result<seq<Frame>, S.Failure>)
      modifies core, core.reassembly
      ensures S.Out(core.View(), r) == S.BrokerRequest(old(core.View()), payload)
    {
      if !core.firstApplication {
        r := Err(S.Plainly(SequenceViolation));
      } else {
        r := core.WriteApplication(payload, S.REQUEST_BYTES);
      }
      if r.Ok? { core.handoff := HandoffPossibleOrConfirmed; }
      if r.Err? { core.CloseState(); }
    }

    method ReadApplicationResponse(frame: Frame) returns (r: Result<Option<seq<byte>>, S.Failure>)
      modifies core, core.reassembly
      ensures S.Out(core.View(), r) == S.BrokerReadResponse(old(core.View()), frame)
    {
      r := core.ReadApplication(frame);
      if r.Err? { core.CloseState(); }
    }

    method Eof() returns (r: Result<(), S.Failure>)
      modifies core, core.reassembly
      ensures S.Out(core.View(), r) == S.Eof(old(core.View()))
    {
      r := core.Eof();
    }

    method WriteClose(reason: CloseReason, h: Handoff) returns (r: Result<Frame, S.Failure>)
      modifies core, core.reassembly
      ensures S.Out(core.View(), r) == S.RoleWriteClose(old(core.View()), reason, h)
    {
      r := core.WriteClose(reason, h);
      if r.Err? { core.CloseState(); }
    }

    method ReadClose(frame: Frame) returns (r: Result<S.Closing, S.Failure>)
      modifies core, core.reassembly
      ensures S.Out(core.View(), r) == S.RoleReadClose(old(core.View()), frame)
    {
      r := core.ReadClose(frame);
      if r.Err? { core.CloseState(); }
    }

    method ValidateBinding(generation: u64, epoch: u64) returns (r: Result<(), S.Failure>)
      modifies core, core.reassembly
      ensures S.Out(core.View(), r) == S.ValidateBinding(old(core.View()), generation, epoch)
    {
      r := core.ValidateBinding(generation, epoch);
    }
  }
}
