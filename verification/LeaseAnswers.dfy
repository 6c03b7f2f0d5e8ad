/** What every call of a lease answers, whatever the state and whatever frame the
    peer sends: exactly when it succeeds, and with which reason it fails. */
module LeaseAnswers {
  import opened Common
  import opened Terms
  import opened Payloads
  import opened Records
  import opened Noise
  import opened Session
  import opened Lease
  import opened LeasePair

  function ReasonOf(e: LeaseEffect): Option<CloseReason> {
    if e.failure.Some? then Some(e.failure.value.reason) else None
  }

  // ---- Writing ---------------------------------------------------------

  /** Room for so much more beside a last Close. */
  predicate Spares(s: LeaseState, bytes: nat) {
    s.sentRecords + 2 < 0x1_0000_0000 && s.sentPlaintext + bytes + 19 < 0x100_0000_0000
  }

  function Refusal(s: LeaseState, bytes: nat): Option<CloseReason> {
    if !Spares(s, bytes) then Some(RecordLimit) else if !Alive(s) then Some(SequenceViolation) else None
  }

  lemma SealAnswers(s: LeaseState, r: Record)
    requires |r.data| <= RECORD_DATA_MAX
    ensures var d := SealRecord(s, r);
            && (r.kind.Close? ==>
                  (d.result.Ok? <==> s.sentRecords + 1 < 0x1_0000_0000
                                     && s.sentPlaintext + 12 + |r.data| < 0x100_0000_0000 && Alive(s))
                  && (d.result.Err? && Alive(s) ==> d.result.error.reason == RecordLimit))
            && (!r.kind.Close? ==>
                  && (d.result.Ok? <==> Refusal(s, 12 + |r.data|).None?)
                  && (d.result.Err? ==> Some(d.result.error.reason) == Refusal(s, 12 + |r.data|)))
            && (d.result.Err? ==> d.result.error.peerClose.None?)
  {
    hide Plain, CloseRecord;
  }

  /** A heartbeat is asked exactly if none is pending and its counter is larger than the
      last, and as long as the quotas allow. */
  lemma AskAnswers(s: LeaseState, counter: u64)
    ensures ReasonOf(LeaseDo(s, Ask(counter)))
         == if s.pending.Some? || counter <= s.last then Some(SequenceViolation)
            else Refusal(s, 12 + |HeartbeatPayload(1, s.binding, counter).value|)
  {
    hide SealRecord, HeartbeatItems, Spares;
    if s.pending.None? && counter > s.last {
      SealAnswers(s, BeatRecord(1, s.binding, counter));
    }
  }

  /** And answered exactly if it is the pending one. */
  lemma ReplyAnswers(s: LeaseState, counter: u64)
    requires counter > 0
    ensures ReasonOf(LeaseDo(s, Reply(counter)))
         == if s.pending != Some(counter) then Some(SequenceViolation)
            else Refusal(s, 12 + |HeartbeatPayload(2, s.binding, counter).value|)
  {
    hide SealRecord, HeartbeatItems, Spares;
    SealAnswers(s, BeatRecord(2, s.binding, counter));
  }

  lemma ByeAnswers(s: LeaseState, reason: CloseReason, handoff: Handoff)
    requires Alive(s)
    ensures ReasonOf(LeaseDo(s, Bye(reason, handoff)))
         == if s.sentRecords + 1 < 0x1_0000_0000 && s.sentPlaintext + 19 < 0x100_0000_0000 then None
            else Some(RecordLimit)
  {
    hide SealRecord, ClosePayload;
    SealAnswers(s, CloseRecord(Closing(reason, handoff)));
  }

  // ---- Reading ---------------------------------------------------------

  /** Why a frame cannot be opened, if it cannot. */
  function Closed(s: LeaseState, frame: Frame): Option<CloseReason> {
    if !Alive(s) then Some(SequenceViolation)
    else if !Opens(s.transport.value, frame) then Some(AuthenticationFailed)
    else if s.receivedRecords + 1 >= 0x1_0000_0000 || s.receivedPlaintext + |frame.plaintext| >= 0x100_0000_0000
    then Some(RecordLimit)
    else None
  }

  predicate Brings(s: LeaseState, frame: Frame, r: Record) {
    Closed(s, frame).None? && EncodeRecord(r) == Ok(frame.plaintext)
  }

  lemma LimitReason(s: LeaseState)
    ensures var e := LeaseLimit<Record>(s).result.error; e.reason == RecordLimit && e.peerClose.None?
  {
    hide Plain, CloseRecord;
  }

  lemma OpenAnswers(s: LeaseState, frame: Frame)
    ensures var read := OpenRecord(s, frame);
            && (Closed(s, frame).Some? ==> read.result.Err? && read.result.error.reason == Closed(s, frame).value)
            && (read.result.Err? ==> read.result.error.peerClose.None?)
            && (forall r :: read.result == Ok(r) <==> Brings(s, frame, r))
            && (read.result.Ok? ==>
                  && read.state.binding == s.binding && read.state.pending == s.pending && read.state.last == s.last)
  {
    hide Plain, CloseRecord, DecodeRecord, EncodeRecord;
    if Closed(s, frame).None? {
      forall r ensures DecodeRecord(frame.plaintext) == Ok(r) <==> EncodeRecord(r) == Ok(frame.plaintext) {
        RecordExact(frame.plaintext, r);
      }
    }
  }

  /** The record is the heartbeat of this role, this lease and this counter. */
  predicate IsBeat(r: Record, role: byte, binding: LeaseBinding, counter: u64) {
    1 <= role <= 2 && counter > 0 && r == BeatRecord(role, binding, counter)
  }

  /** A heartbeat is read exactly if it is one of the awaited role and of this lease; a
      Close in its place is reported with what it says. */
  lemma BeatAnswers(s: LeaseState, frame: Frame, role: byte, counter: u64, closing: Closing)
    requires 1 <= role <= 2
    ensures var read := ReadHeartbeat(s, frame, role);
            && (Closed(s, frame).Some? ==> read.result.Err? && read.result.error.reason == Closed(s, frame).value)
            && (read.result == Ok(counter) <==>
                  exists r :: Brings(s, frame, r) && IsBeat(r, role, s.binding, counter))
            && (read.result == Err(Failure(PeerClosed, Some(closing), None)) <==>
                  Brings(s, frame, CloseRecord(closing)))
            && (read.result.Ok? ==> read.result.value > 0)
            && (read.result.Ok? ==> read.state.pending == s.pending && read.state.last == s.last)
  {
    hide OpenRecord, EncodeRecord, Closed, Brings, ParseHeartbeat, ParseClose, HeartbeatItems, ClosePayload;
    OpenAnswers(s, frame);
    CloseLength(closing.reason, closing.handoff);
    var found := OpenRecord(s, frame).result;
    if found.Ok? {
      var r := found.value;
      HeartbeatExact(r.data, role, s.binding, counter);
      CloseExact(r.data, closing.reason, closing.handoff);
      if ReadHeartbeat(s, frame, role).result.Ok? {
        HeartbeatExact(r.data, role, s.binding, ReadHeartbeat(s, frame, role).result.value);
      }
    }
  }

  /** The Target takes a heartbeat exactly if none is pending and its counter is larger
      than the last; the same heartbeat again, or an earlier one, is out of sequence. */
  lemma RequestAnswers(s: LeaseState, frame: Frame, counter: u64, closing: Closing)
    ensures var e := LeaseDo(s, TakeRequest(frame));
            && (s.pending.Some? ==> ReasonOf(e) == Some(SequenceViolation))
            && (s.pending.None? && Closed(s, frame).Some? ==> ReasonOf(e) == Closed(s, frame))
            && (e.taken == Some(counter) <==>
                  && s.pending.None? && counter > s.last
                  && exists r :: Brings(s, frame, r) && IsBeat(r, 1, s.binding, counter))
            && ((exists r :: Brings(s, frame, r) && IsBeat(r, 1, s.binding, counter)) && counter <= s.last ==>
                  ReasonOf(e) == Some(SequenceViolation))
            && (e.failure == Some(Failure(PeerClosed, Some(closing), None)) <==>
                  s.pending.None? && Brings(s, frame, CloseRecord(closing)))
            && (e.taken.Some? <==> e.failure.None?)
  {
    hide ReadHeartbeat, Closed, Brings, IsBeat, CloseRecord;
    BeatAnswers(s, frame, 1, counter, closing);
  }

  /** The Broker takes an answer exactly if it is for the counter it asked with. */
  lemma AnswerAnswers(s: LeaseState, frame: Frame, counter: u64, closing: Closing)
    ensures var e := LeaseDo(s, TakeReply(frame));
            && (Closed(s, frame).Some? ==> ReasonOf(e) == Closed(s, frame))
            && (e.taken == Some(counter) <==>
                  && s.pending == Some(counter)
                  && exists r :: Brings(s, frame, r) && IsBeat(r, 2, s.binding, counter))
            && ((exists r :: Brings(s, frame, r) && IsBeat(r, 2, s.binding, counter)) && s.pending != Some(counter) ==>
                  ReasonOf(e) == Some(SequenceViolation))
            && (e.failure == Some(Failure(PeerClosed, Some(closing), None)) <==>
                  Brings(s, frame, CloseRecord(closing)))
            && (e.taken.Some? <==> e.failure.None?)
  {
    hide ReadHeartbeat, Closed, Brings, IsBeat, CloseRecord;
    BeatAnswers(s, frame, 2, counter, closing);
  }

  /** Where a Close is awaited, exactly a Close is taken, with what it says. */
  lemma ByeTaken(s: LeaseState, frame: Frame, closing: Closing)
    ensures LeaseReadClose(s, frame).result == Ok(closing) <==> Brings(s, frame, CloseRecord(closing))
    ensures Closed(s, frame).Some? ==> ReasonOf(LeaseDo(s, TakeBye(frame))) == Closed(s, frame)
  {
    hide OpenRecord, EncodeRecord, Closed, Brings, ParseClose, ClosePayload;
    OpenAnswers(s, frame);
    CloseLength(closing.reason, closing.handoff);
    if OpenRecord(s, frame).result.Ok? {
      CloseExact(OpenRecord(s, frame).result.value.data, closing.reason, closing.handoff);
    }
  }

  /** Every failure ends the lease, and so does a Close in either direction; any other
      call that succeeds leaves it open. */
  lemma LeaseEnds(s: LeaseState, call: LeaseCall)
    requires Alive(s)
    ensures var e := LeaseDo(s, call);
            e.state.closed <==> e.failure.Some? || call.Bye? || call.TakeBye?
  {
    hide Plain, CloseRecord, Unseal, DecodeRecord, ParseHeartbeat, ParseClose, BeatRecord, HeartbeatItems, LeaseLimit;
    if call.TakeRequest? || call.TakeReply? || call.TakeBye? {
      UnsealStays(s, call.frame);
    }
  }

  lemma UnsealStays(s: LeaseState, frame: Frame)
    requires Alive(s)
    ensures var d := Unseal(s, frame); d.result.Ok? ==> !d.state.closed
  {
    hide LeaseLimit;
  }

  // ---- The acknowledgement ---------------------------------------------

  /** An acknowledgement is taken if and only if the frame opens and holds byte for byte
      one that the Broker is waiting for; its lease then starts with that one record. */
  lemma AckAnswers(t: Transport, binding: BootstrapBinding, hash: Bytes32, frame: Frame, ack: BootstrapAck)
    ensures (exists lease :: ReadAck(t, binding, hash, frame) == Ok(Acked(ack, lease))) <==>
            Opens(t, frame) && EncodeRecord(AckRecord(ack)) == Ok(frame.plaintext) && Acknowledges(ack, binding, hash)
    ensures !Opens(t, frame) ==> ReadAck(t, binding, hash, frame) == Err(AuthenticationFailed)
  {
    hide DecodeRecord, EncodeRecord, ParseAck, AckPayload;
    AckLength(ack);
    if Opens(t, frame) {
      RecordExact(frame.plaintext, AckRecord(ack));
      if DecodeRecord(frame.plaintext).Ok? {
        var r := DecodeRecord(frame.plaintext).value;
        RecordExact(frame.plaintext, r);
        AckExact(r.data, binding, hash, ack);
      }
    }
  }
}
