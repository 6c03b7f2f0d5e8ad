/** One direction between two honest cores: what is in flight is the Finished
    the receiver has not taken, the rest of at most one message, and a Close. */
module Lanes {
  import opened Common
  import opened Terms
  import opened Payloads
  import opened Records
  import opened Noise
  import opened Session
  import opened SessionRuns

  datatype Lane = Lane(
    from: Role, s: Core, r: Core, queue: seq<Frame>, sent: seq<seq<byte>>, got: seq<seq<byte>>, close: Option<Closing>)

  function WireRole(role: Role): byte {
    if role.Target? then TARGET_ROLE else BROKER_ROLE
  }

  function FinishedRecord(role: Role, binding: SessionBinding, hash: Bytes32): (r: Record)
    ensures |r.data| <= RECORD_DATA_MAX
  {
    FinishedLength(binding, WireRole(role), hash);
    var payload := FinishedPayload(binding, WireRole(role), hash);
    Record(Finished, true, true, |payload|, 0, payload)
  }

  function Offset(l: Lane): nat {
    |Pending(l.r.reassembly)|
  }

  predicate Flowing(l: Lane) {
    |l.got| < |l.sent|
  }

  /** The two ends agree on how far the current message has come. */
  predicate Aligned(l: Lane) {
    && Usable(l.r)
    && l.s.binding == l.r.binding
    && (Usable(l.s) ==> l.s.transport.value.key == l.r.transport.value.key)
    && l.r.sessionHash == Some(l.r.transport.value.key)
    && l.r.transport.value.initiator == !l.from.Target?
    && l.r.transport.value.recvNonce == l.r.receivedRecords
    && (!l.s.closed ==> l.close.None?)
    && |l.got| <= |l.sent| <= |l.got| + 1
    && !l.r.reassembly.failed
    && (if Flowing(l) then Midway(l) else l.r.reassembly.active.None?)
    && (l.r.gotFinished ==> l.s.sentFinished)
    && (!l.r.gotFinished ==> l.r.reassembly.active.None?)
  }

  predicate Midway(l: Lane)
    requires Flowing(l)
  {
    var payload := l.sent[|l.got|];
    && Sendable(payload)
    && Offset(l) < |payload| <= l.r.reassembly.cap
    && l.r.reassembly.active == Progress(Application, payload, Offset(l))
    && l.s.sentFinished
  }

  function Greeting(l: Lane): (rs: seq<Record>)
    requires Aligned(l)
    ensures Fitting(rs)
  {
    if l.s.sentFinished && !l.r.gotFinished
    then [FinishedRecord(l.from, l.r.binding, l.r.transport.value.key)] else []
  }

  function Remaining(l: Lane): (rs: seq<Record>)
    requires Aligned(l)
    ensures Fitting(rs)
  {
    if Flowing(l) then FragmentsFrom(Application, l.sent[|l.got|], Offset(l)) else []
  }

  function Farewell(l: Lane): (rs: seq<Record>)
    ensures Fitting(rs)
  {
    if l.close.Some? then [CloseRecord(l.close.value)] else []
  }

  function Flying(l: Lane): (rs: seq<Record>)
    requires Aligned(l)
    ensures Fitting(rs)
  {
    Greeting(l) + Remaining(l) + Farewell(l)
  }

  function Sender(l: Lane): Transport
    requires Usable(l.r)
  {
    Transport(l.r.transport.value.key, l.from.Target?, l.r.receivedRecords, 0)
  }

  /** The frames of a list of records as the sender seals them. */
  function Frames(t: Transport, rs: seq<Record>): seq<Frame>
    requires Fitting(rs)
  {
    FragmentsFitFrames(rs);
    SealAll(t, Plains(rs))
  }

  function Weight(rs: seq<Record>): nat
    requires Fitting(rs)
  {
    Volume(Plains(rs))
  }

  /** The queue is exactly what is in flight, and both sides' counts differ by it. */
  predicate Carrying(l: Lane) {
    && Aligned(l)
    && l.queue == Frames(Sender(l), Flying(l))
    && l.s.sentRecords == l.r.receivedRecords + |Flying(l)| < RECORD_LIMIT
    && l.s.sentPlaintext == l.r.receivedPlaintext + Weight(Flying(l)) < BYTE_LIMIT
    && l.r.reassembly.records <= l.r.receivedRecords
    && l.r.reassembly.bytes <= l.r.receivedPlaintext
  }

  // ---- Lists of frames -------------------------------------------------

  function Later(t: Transport, n: nat): Transport {
    Transport(t.key, t.initiator, t.sendNonce + n, t.recvNonce)
  }

  lemma FramesHead(t: Transport, r: Record, rest: seq<Record>)
    requires Fitting([r] + rest)
    requires Fitting(rest) && |r.data| <= RECORD_DATA_MAX
    ensures Frames(t, [r] + rest) == [Sealed(t.key, t.initiator, t.sendNonce, Plain(r))] + Frames(Later(t, 1), rest)
    ensures Weight([r] + rest) == RECORD_HEADER_LEN + |r.data| + Weight(rest)
  {
    assert Plains([r] + rest)[1..] == Plains(rest);
    PlainFacts(r);
  }

  lemma FramesNone(t: Transport)
    ensures Fitting([]) && Frames(t, []) == [] && Weight([]) == 0
  {
  }

  lemma {:induction false} FramesAppend(t: Transport, a: seq<Record>, b: seq<Record>)
    requires Fitting(a) && Fitting(b)
    ensures Fitting(a + b)
    ensures Frames(t, a + b) == Frames(t, a) + Frames(Later(t, |a|), b)
    ensures Weight(a + b) == Weight(a) + Weight(b)
    decreases |a|
  {
    hide Frames, Weight;
    if a == [] {
      FramesNone(t);
      assert a + b == b;
      assert Later(t, 0) == t;
      assert [] + Frames(t, b) == Frames(t, b);
    } else {
      var r, rest := a[0], a[1..];
      assert [r] + rest == a;
      assert [r] + (rest + b) == a + b;
      FramesAppend(Later(t, 1), rest, b);
      assert Later(Later(t, 1), |rest|) == Later(t, |a|);
      FramesHead(t, r, rest);
      FramesHead(t, r, rest + b);
      Assoc([Sealed(t.key, t.initiator, t.sendNonce, Plain(r))], Frames(Later(t, 1), rest), Frames(Later(t, |a|), b));
    }
  }

  lemma {:induction false} SealIgnoresReceiving(t: Transport, n: nat, plains: seq<seq<byte>>)
    requires Sealable(plains)
    ensures SealAll(t.(recvNonce := n), plains) == SealAll(t, plains)
    decreases |plains|
  {
    if plains != [] {
      SealIgnoresReceiving(AfterSeal(t), n, plains[1..]);
    }
  }

  // ---- The sender puts more in flight ----------------------------------

  /** What the sender seals continues what is already in flight. */
  lemma SenderExtends(l: Lane, l': Lane, more: seq<Record>)
    requires Carrying(l) && Aligned(l') && Fitting(more)
    requires l'.r == l.r && l'.from == l.from
    requires Flying(l') == Flying(l) + more
    requires Usable(l.s) && l.s.transport.value.initiator == l.from.Target?
    requires l.s.transport.value.sendNonce == l.s.sentRecords
    requires l'.queue == l.queue + Frames(l.s.transport.value, more)
    requires l'.s.sentRecords == l.s.sentRecords + |more| < RECORD_LIMIT
    requires l'.s.sentPlaintext == l.s.sentPlaintext + Weight(more) < BYTE_LIMIT
    ensures Carrying(l')
  {
    hide Flying, Aligned, FragmentsFrom;
    var n := |Flying(l)|;
    FragmentsFitFrames(more);
    SealIgnoresReceiving(l.s.transport.value, 0, Plains(more));
    assert l.s.transport.value.(recvNonce := 0) == Later(Sender(l), n) by {
      AlignedKeys(l);
    }
    FramesAppend(Sender(l), Flying(l), more);
    AlignedUsable(l);
    assert Sender(l') == Sender(l);
  }

  lemma AlignedKeys(l: Lane)
    requires Aligned(l) && Usable(l.s)
    ensures Usable(l.r) && l.s.transport.value.key == l.r.transport.value.key
  {
  }

  lemma AlignedUsable(l: Lane)
    requires Aligned(l)
    ensures Usable(l.r)
  {
  }

  predicate SameOutbound(s: Core, s': Core) {
    && s'.binding == s.binding
    && s'.sentFinished == s.sentFinished
    && s'.sentRecords == s.sentRecords
    && s'.sentPlaintext == s.sentPlaintext
    && (s.closed ==> s'.closed)
    && (Usable(s') ==> Usable(s) && s'.transport.value.key == s.transport.value.key)
  }

  predicate SameInbound(r: Core, r': Core) {
    && r'.binding == r.binding
    && r'.sessionHash == r.sessionHash
    && r'.gotFinished == r.gotFinished
    && r'.reassembly == r.reassembly
    && r'.receivedRecords == r.receivedRecords
    && r'.receivedPlaintext == r.receivedPlaintext
    && Usable(r) && Usable(r')
    && r'.transport.value.key == r.transport.value.key
    && r'.transport.value.initiator == r.transport.value.initiator
    && r'.transport.value.recvNonce == r.transport.value.recvNonce
  }

  lemma LaneUntouched(l: Lane, s': Core, r': Core)
    requires Carrying(l)
    requires SameOutbound(l.s, s') && SameInbound(l.r, r')
    ensures Carrying(l.(s := s', r := r'))
  {
    hide FragmentsFrom, Frames, Weight, FinishedRecord, CloseRecord;
  }

  /** The sender's handshake ends on the transcript the receiver already has. */
  lemma SenderReady(l: Lane, s': Core)
    requires Carrying(l) && SameOutbound(l.s, s'.(transport := l.s.transport)) && s'.closed == l.s.closed
    requires s'.transport.Some? && s'.transport.value.key == l.r.transport.value.key
    ensures Carrying(l.(s := s'))
  {
    hide FragmentsFrom, Frames, Weight, FinishedRecord, CloseRecord;
  }

  /** Nothing has been sent yet. */
  lemma LaneStarts(l: Lane)
    requires Usable(l.r) && l.s.binding == l.r.binding
    requires Usable(l.s) ==> l.s.transport.value.key == l.r.transport.value.key
    requires l.r.transport.value.initiator == !l.from.Target?
    requires l.r.sessionHash == Some(l.r.transport.value.key)
    requires l.queue == [] && l.sent == [] && l.got == [] && l.close.None?
    requires !l.s.sentFinished && l.s.sentRecords == l.s.sentPlaintext == 0
    requires !l.r.gotFinished && l.r.receivedRecords == l.r.receivedPlaintext == l.r.transport.value.recvNonce == 0
    requires !l.r.reassembly.failed && l.r.reassembly.active.None?
    requires l.r.reassembly.records == l.r.reassembly.bytes == 0
    ensures Carrying(l)
  {
    FramesNone(Sender(l));
  }

  /** None of these frames is a Close. */
  lemma {:induction false} FramesSpeak(t: Transport, rs: seq<Record>)
    requires Fitting(rs)
    requires forall i :: 0 <= i < |rs| ==> !rs[i].kind.Close?
    ensures |Frames(t, rs)| == |rs|
    ensures forall i :: 0 <= i < |rs| ==> Frames(t, rs)[i].Sealed? && CloseIn(Frames(t, rs)[i]).None?
    decreases |rs|
  {
    hide Frames, Weight, EncodeRecord, DecodeRecord;
    if rs == [] {
      FramesNone(t);
    } else {
      var rest := rs[1..];
      assert [rs[0]] + rest == rs;
      FramesHead(t, rs[0], rest);
      FramesSpeak(Later(t, 1), rest);
      PlainFacts(rs[0]);
      assert CloseIn(Sealed(t.key, t.initiator, t.sendNonce, Plain(rs[0]))).None?;
    }
  }

  lemma SenderFinishes(l: Lane, s': Core)
    requires Carrying(l) && Usable(l.s) && Usable(s')
    requires !l.s.sentFinished && s'.sentFinished && s'.binding == l.s.binding
    requires l.s.transport.value.initiator == l.from.Target? && l.s.transport.value.sendNonce == l.s.sentRecords
    requires s'.transport.value.key == l.s.transport.value.key
    requires var r := FinishedRecord(l.from, l.s.binding, l.s.transport.value.key);
             && s'.sentRecords == l.s.sentRecords + 1 < RECORD_LIMIT
             && s'.sentPlaintext == l.s.sentPlaintext + RECORD_HEADER_LEN + |r.data| < BYTE_LIMIT
    ensures var r := FinishedRecord(l.from, l.s.binding, l.s.transport.value.key);
            var frame := Sealed(l.s.transport.value.key, l.from.Target?, l.s.sentRecords, Plain(r));
            Carrying(l.(s := s', queue := l.queue + [frame]))
  {
    hide FragmentsFrom, Frames, Weight, FinishedRecord, Plain;
    var r := FinishedRecord(l.from, l.s.binding, l.s.transport.value.key);
    var frame := Sealed(l.s.transport.value.key, l.from.Target?, l.s.sentRecords, Plain(r));
    var l' := l.(s := s', queue := l.queue + [frame]);
    assert Flying(l) == [] && Flying(l') == [r];
    FramesNone(Later(l.s.transport.value, 1));
    FramesHead(l.s.transport.value, r, []);
    assert [r] + [] == [r];
    SenderExtends(l, l', [r]);
  }

  lemma SenderSpeaks(l: Lane, s': Core, payload: seq<byte>)
    requires Carrying(l) && Usable(l.s) && Usable(s')
    requires |l.sent| == |l.got|
    requires Sendable(payload) && |payload| <= l.r.reassembly.cap
    requires l.s.sentFinished && s'.sentFinished && s'.binding == l.s.binding
    requires l.s.transport.value.initiator == l.from.Target? && l.s.transport.value.sendNonce == l.s.sentRecords
    requires s'.transport.value.key == l.s.transport.value.key
    requires var rs := FragmentsFrom(Application, payload, 0);
             && s'.sentRecords == l.s.sentRecords + |rs| < RECORD_LIMIT
             && s'.sentPlaintext == l.s.sentPlaintext + Weight(rs) < BYTE_LIMIT
    ensures Carrying(l.(s := s', sent := l.sent + [payload],
                        queue := l.queue + Frames(l.s.transport.value, FragmentsFrom(Application, payload, 0))))
  {
    hide FragmentsFrom, Frames, Weight, FinishedRecord, Plain;
    var rs := FragmentsFrom(Application, payload, 0);
    var l' := l.(s := s', sent := l.sent + [payload], queue := l.queue + Frames(l.s.transport.value, rs));
    assert Offset(l') == 0;
    assert Greeting(l') == Greeting(l) && Remaining(l) == [] && Farewell(l) == [];
    assert Flying(l') == Flying(l) + rs;
    SenderExtends(l, l', rs);
  }

  lemma SenderEnds(l: Lane, s': Core, closing: Closing)
    requires Carrying(l) && Usable(l.s)
    requires s'.closed && s'.binding == l.s.binding && s'.sentFinished == l.s.sentFinished
    requires l.s.transport.value.initiator == l.from.Target? && l.s.transport.value.sendNonce == l.s.sentRecords
    requires s'.sentRecords == l.s.sentRecords + 1 < RECORD_LIMIT
    requires s'.sentPlaintext == l.s.sentPlaintext + CLOSE_RECORD_LEN < BYTE_LIMIT
    ensures Carrying(l.(s := s', close := Some(closing),
                        queue := l.queue + [SealFrame(l.s.transport.value, CloseText(closing))]))
  {
    hide FragmentsFrom, Frames, Weight, FinishedRecord, CloseRecord, Plain;
    var r := CloseRecord(closing);
    var frame := SealFrame(l.s.transport.value, CloseText(closing));
    var l' := l.(s := s', close := Some(closing), queue := l.queue + [frame]);
    assert Greeting(l') == Greeting(l) && Remaining(l') == Remaining(l) && Farewell(l) == [];
    assert Flying(l') == Flying(l) + [r];
    FramesNone(Later(l.s.transport.value, 1));
    FramesHead(l.s.transport.value, r, []);
    assert [r] + [] == [r];
    SenderExtends(l, l', [r]);
  }

  function CloseText(closing: Closing): (plain: seq<byte>)
    ensures |plain| == CLOSE_RECORD_LEN
  {
    ClosePlainLength(closing);
    Plain(CloseRecord(closing))
  }

  // ---- The receiver takes the front ------------------------------------

  function Took(r: Core, record: Record): Core
    requires r.transport.Some?
  {
    r.(transport := Some(AfterOpen(r.transport.value)),
       receivedRecords := r.receivedRecords + 1,
       receivedPlaintext := r.receivedPlaintext + RECORD_HEADER_LEN + |record.data|)
  }

  /** The front frame always opens, counts and decodes. */
  lemma FrontReads(l: Lane)
    requires Carrying(l) && l.queue != []
    ensures Flying(l) != []
    ensures ReadRecord(l.r, l.queue[0]) == Out(Took(l.r, Flying(l)[0]), Ok(Flying(l)[0]))
  {
    hide FragmentsFrom, Flying, FinishedRecord, CloseRecord, EncodeRecord, DecodeRecord, Plain, AtLimit;
    var rs := Flying(l);
    if rs == [] {
      FramesNone(Sender(l));
    } else {
      var r, rest := rs[0], rs[1..];
      assert [r] + rest == rs;
      FramesHead(Sender(l), r, rest);
      PlainFacts(r);
    }
  }

  /** Taking the front record leaves the rest in flight. */
  lemma ReceiverTakes(l: Lane, r': Core, got': seq<seq<byte>>, rest: seq<Record>)
    requires Carrying(l) && l.queue != [] && Flying(l) == [Flying(l)[0]] + rest
    requires var l' := l.(r := r', got := got', queue := l.queue[1..]); Aligned(l') && Flying(l') == rest
    requires r'.transport.value.key == l.r.transport.value.key
    requires r'.receivedRecords == l.r.receivedRecords + 1
    requires r'.receivedPlaintext == l.r.receivedPlaintext + RECORD_HEADER_LEN + |Flying(l)[0].data|
    requires r'.reassembly.records <= r'.receivedRecords && r'.reassembly.bytes <= r'.receivedPlaintext
    ensures Carrying(l.(r := r', got := got', queue := l.queue[1..]))
  {
    hide FragmentsFrom, Flying, FinishedRecord, CloseRecord, EncodeRecord, Plain, Frames, Weight;
    FramesHead(Sender(l), Flying(l)[0], rest);
  }

  lemma ReceiverTakesFinished(l: Lane)
    requires Carrying(l) && l.queue != [] && !l.r.gotFinished && l.s.sentFinished
    ensures Flying(l)[0] == FinishedRecord(l.from, l.r.binding, l.r.transport.value.key)
    ensures Carrying(l.(r := Took(l.r, Flying(l)[0]).(gotFinished := true), queue := l.queue[1..]))
  {
    hide FragmentsFrom, FinishedRecord, CloseRecord, Plain, Frames, Weight;
    var r' := Took(l.r, Flying(l)[0]).(gotFinished := true);
    var l' := l.(r := r', queue := l.queue[1..]);
    assert Remaining(l') == Remaining(l);
    assert Flying(l) == [Flying(l)[0]] + Flying(l');
    ReceiverTakes(l, r', l.got, Flying(l'));
  }

  lemma HasFragment(payload: seq<byte>, offset: nat)
    requires Sendable(payload) && offset < |payload|
    ensures ChunkEnd(payload, offset) <= |payload|
    ensures FragmentsFrom(Application, payload, offset) ==
            [FragmentAt(Application, payload, offset)] + FragmentsFrom(Application, payload, ChunkEnd(payload, offset))
  {
    hide FragmentAt;
  }

  lemma FrontFragment(l: Lane)
    requires Carrying(l) && l.r.gotFinished && Flowing(l)
    ensures var payload := l.sent[|l.got|];
            var end := ChunkEnd(payload, Offset(l));
            && Flying(l) == [FragmentAt(Application, payload, Offset(l))]
                            + (FragmentsFrom(Application, payload, end) + Farewell(l))
  {
    hide FragmentAt, FragmentsFrom, CloseRecord, Farewell, Frames, Weight, ChunkEnd;
    var payload := l.sent[|l.got|];
    HasFragment(payload, Offset(l));
    var rest := FragmentsFrom(Application, payload, ChunkEnd(payload, Offset(l)));
    Assoc([FragmentAt(Application, payload, Offset(l))], rest, Farewell(l));
    assert Greeting(l) == [];
  }

  /** The core after the reassembler took one fragment of its message. */
  function Fed(r: Core, record: Record, active: Option<Partial>, turnBack: bool): Core
    requires r.transport.Some?
  {
    Took(r, record).(
      reassembly := Counted(r.reassembly, record).(active := active),
      peerTurn := r.peerTurn && !turnBack)
  }

  lemma FragmentAssembles(l: Lane)
    requires Carrying(l) && l.queue != [] && l.r.gotFinished && Flowing(l) && l.r.peerTurn
    ensures var payload := l.sent[|l.got|];
            var record := FragmentAt(Application, payload, Offset(l));
            var end := ChunkEnd(payload, Offset(l));
            && Flying(l)[0] == record
            && Assemble(Took(l.r, record), record) ==
               if end == |payload| then Out(Fed(l.r, record, None, true), Ok(Some(payload)))
               else Out(Fed(l.r, record, Progress(Application, payload, end), false), Ok(None))
  {
    hide FragmentsFrom, FragmentAt, CloseRecord, Frames, Flying, AcceptSpec;
    var payload := l.sent[|l.got|];
    FrontFragment(l);
    var record := FragmentAt(Application, payload, Offset(l));
    FrontWeighs(l, record);
    FragmentAdvances(l.r.reassembly, Application, payload, Offset(l));
  }

  lemma FrontWeighs(l: Lane, record: Record)
    requires Carrying(l) && Flying(l) != [] && Flying(l)[0] == record
    ensures |record.data| <= RECORD_DATA_MAX
    ensures !OverLimit(Counted(l.r.reassembly, record))
  {
    hide FragmentsFrom, CloseRecord, Frames, Weight, Flying;
    var rest := Flying(l)[1..];
    assert [record] + rest == Flying(l);
    FramesHead(Sender(l), record, rest);
  }

  /** A fragment that is not the last one. */
  lemma ReceiverTakesFragment(l: Lane)
    requires Carrying(l) && l.queue != [] && l.r.gotFinished && Flowing(l)
    requires ChunkEnd(l.sent[|l.got|], Offset(l)) < |l.sent[|l.got|]|
    ensures var payload := l.sent[|l.got|];
            var record := FragmentAt(Application, payload, Offset(l));
            var end := ChunkEnd(payload, Offset(l));
            Carrying(l.(r := Fed(l.r, record, Progress(Application, payload, end), false), queue := l.queue[1..]))
  {
    hide FragmentsFrom, FragmentAt, CloseRecord, Frames, Weight;
    var payload := l.sent[|l.got|];
    var record := FragmentAt(Application, payload, Offset(l));
    var r' := Fed(l.r, record, Progress(Application, payload, ChunkEnd(payload, Offset(l))), false);
    var l' := l.(r := r', queue := l.queue[1..]);
    FrontFragment(l);
    FrontWeighs(l, record);
    assert Offset(l') == ChunkEnd(payload, Offset(l));
    assert Flying(l') == FragmentsFrom(Application, payload, Offset(l')) + Farewell(l);
    ReceiverTakes(l, r', l.got, Flying(l'));
  }

  lemma NoneLeft(payload: seq<byte>)
    requires Sendable(payload)
    ensures FragmentsFrom(Application, payload, |payload|) == []
  {
  }

  /** The last fragment delivers the message. */
  lemma ReceiverTakesLast(l: Lane, cap: nat)
    requires Carrying(l) && l.queue != [] && l.r.gotFinished && Flowing(l)
    requires ChunkEnd(l.sent[|l.got|], Offset(l)) == |l.sent[|l.got|]|
    ensures var payload := l.sent[|l.got|];
            var r' := Fed(l.r, FragmentAt(Application, payload, Offset(l)), None, true);
            Carrying(l.(r := r'.(reassembly := r'.reassembly.(cap := cap)), got := l.got + [payload],
                        queue := l.queue[1..]))
  {
    hide FragmentAt, FragmentsFrom, CloseRecord, Frames, Weight;
    var payload := l.sent[|l.got|];
    var record := FragmentAt(Application, payload, Offset(l));
    NoneLeft(payload);
    var fed := Fed(l.r, record, None, true);
    var r' := fed.(reassembly := fed.reassembly.(cap := cap));
    var l' := l.(r := r', got := l.got + [payload], queue := l.queue[1..]);
    FrontFragment(l);
    FrontWeighs(l, record);
    assert Flying(l') == Farewell(l) == FragmentsFrom(Application, payload, |payload|) + Farewell(l);
    ReceiverTakes(l, r', l'.got, Flying(l'));
  }
}
