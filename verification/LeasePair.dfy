/** The lease over whole runs: against any peer, and between two honest ends. */
module LeasePair {
  import opened Common
  import opened Terms
  import opened Payloads
  import opened Records
  import opened Noise
  import Cbor
  import opened Session
  import SessionRuns
  import opened Lease
  import L = Lanes

  datatype LeaseCall =
    | Ask(counter: u64)
    | Reply(counter: u64)
    | TakeRequest(frame: Frame)
    | TakeReply(frame: Frame)
    | Bye(reason: CloseReason, handoff: Handoff)
    | TakeBye(frame: Frame)

  datatype LeaseEffect = LeaseEffect(state: LeaseState, frames: seq<Frame>, taken: Option<u64>,
                                     failure: Option<Failure>)

  function Refused<T>(done: Done<T>): LeaseEffect
    requires done.result.Err?
  {
    var e := done.result.error;
    LeaseEffect(done.state, if e.closeFrame.Some? then [e.closeFrame.value] else [], None, Some(e))
  }

  function Wrote(done: Done<Frame>): LeaseEffect {
    if done.result.Err? then Refused(done) else LeaseEffect(done.state, [done.result.value], None, None)
  }

  function Took(done: Done<u64>): LeaseEffect {
    if done.result.Err? then Refused(done) else LeaseEffect(done.state, [], Some(done.result.value), None)
  }

  function LeaseDo(s: LeaseState, call: LeaseCall): LeaseEffect {
    match call
    case Ask(counter) => Wrote(WriteRequest(s, counter))
    case Reply(counter) => Wrote(WriteReply(s, counter))
    case TakeRequest(frame) => Took(ReadRequest(s, frame))
    case TakeReply(frame) => Took(ReadReply(s, frame))
    case Bye(reason, handoff) => Wrote(LeaseWriteClose(s, reason, handoff))
    case TakeBye(frame) =>
      var read := LeaseReadClose(s, frame);
      if read.result.Err? then Refused(read) else LeaseEffect(read.state, [], None, None)
  }

  // ---- Against any peer ------------------------------------------------

  /** Counters in step with the channel, and room for one more Close. */
  predicate Kept(s: LeaseState) {
    if s.closed then s.transport.None?
    else
      && s.transport.Some?
      && s.transport.value.sendNonce == s.sentRecords
      && s.transport.value.recvNonce == s.receivedRecords
      && s.sentRecords + 1 < RECORD_LIMIT
      && s.sentPlaintext + CLOSE_RECORD_LEN < BYTE_LIMIT
  }

  lemma OpenRecordKept(s: LeaseState, frame: Frame)
    requires Kept(s)
    ensures OpenRecord(s, frame).result.Ok? ==>
              var s1 := OpenRecord(s, frame).state;
              Kept(s1) && !s1.closed && s1.pending == s.pending && s1.last == s.last && s1.binding == s.binding
  {
    hide LeaseLimit, DecodeRecord;
  }

  lemma ReadHeartbeatKept(s: LeaseState, frame: Frame, role: byte)
    requires Kept(s)
    ensures ReadHeartbeat(s, frame, role).result.Ok? ==> Kept(ReadHeartbeat(s, frame, role).state)
  {
    hide OpenRecord, ParseHeartbeat, ParseClose;
    OpenRecordKept(s, frame);
  }

  lemma WriteHeartbeatKept(s: LeaseState, role: byte, counter: u64)
    requires Kept(s)
    ensures WriteHeartbeat(s, role, counter).result.Ok? ==> Kept(WriteHeartbeat(s, role, counter).state)
  {
    hide LeaseLimit, BeatRecord, HeartbeatItems, EncodeRecord;
  }

  /** Every call, with any arguments and any frame, keeps the invariant. */
  lemma LeaseCallKeeps(s: LeaseState, call: LeaseCall)
    requires Kept(s)
    ensures Kept(LeaseDo(s, call).state)
  {
    hide ReadHeartbeat, WriteHeartbeat, OpenRecord, SealRecord, Kept;
    match call {
      case Ask(counter) => WriteHeartbeatKept(s, REQUEST_ROLE, counter); KeptFacts(s);
      case Reply(counter) => WriteHeartbeatKept(s, REPLY_ROLE, counter); KeptFacts(s);
      case TakeRequest(frame) => ReadHeartbeatKept(s, frame, REQUEST_ROLE); KeptFacts(s);
      case TakeReply(frame) => ReadHeartbeatKept(s, frame, REPLY_ROLE); KeptFacts(s);
      case _ => KeptFacts(s);
    }
  }

  lemma KeptFacts(s: LeaseState)
    ensures forall d: LeaseState :: Kept(Shut(d))
    ensures forall d: LeaseState, p, l :: Kept(d) ==> Kept(d.(pending := p, last := l))
    ensures forall d: LeaseState, p :: Kept(d) ==> Kept(d.(pending := p))
  {
  }

  function LeaseRun(s: LeaseState, calls: seq<LeaseCall>): LeaseState
    decreases |calls|
  {
    if calls == [] then s else LeaseRun(LeaseDo(s, calls[0]).state, calls[1..])
  }

  lemma {:induction false} LeaseRunKeeps(s: LeaseState, calls: seq<LeaseCall>)
    requires Kept(s)
    ensures Kept(LeaseRun(s, calls))
    decreases |calls|
  {
    hide LeaseDo, Kept;
    if calls != [] {
      LeaseCallKeeps(s, calls[0]);
      LeaseRunKeeps(LeaseDo(s, calls[0]).state, calls[1..]);
    }
  }

  predicate FreshLease(s: LeaseState) {
    && Alive(s)
    && s.transport.value.sendNonce == s.sentRecords <= 1
    && s.transport.value.recvNonce == s.receivedRecords <= 1
    && s.sentPlaintext <= 212 && s.receivedPlaintext <= 212
    && s.pending.None? && s.last == 0
  }

  /** Whichever acknowledgement a bootstrap end writes, and whichever frame the
      other accepts as one, the lease it is left with is fresh. */
  lemma AckStartsFresh(t: Transport, ack: BootstrapAck, binding: BootstrapBinding, hash: Bytes32, frame: Frame)
    requires t.sendNonce == t.recvNonce == 0
    ensures FreshLease(WriteAck(t, ack).1)
    ensures ReadAck(t, binding, hash, frame).Ok? ==> FreshLease(ReadAck(t, binding, hash, frame).value.lease)
  {
    hide EncodeRecord, DecodeRecord, AckItems, AckPayload, ParseAck, Acknowledges;
    PlainFacts(AckRecord(ack));
    AckLength(ack);
    if ReadAck(t, binding, hash, frame).Ok? {
      var got := ReadAck(t, binding, hash, frame).value.ack;
      var r := DecodeRecord(frame.plaintext).value;
      DecodedFits(frame.plaintext, r);
      AckExact(r.data, binding, hash, got);
      AckLength(got);
    }
  }

  /** Whatever was called and whatever the peer sent: while the lease is open it
      can still say goodbye, with the reason and hand-off it was given. */
  lemma LeaseCloseAlwaysFits(start: LeaseState, calls: seq<LeaseCall>, reason: CloseReason, handoff: Handoff)
    requires FreshLease(start)
    requires Alive(LeaseRun(start, calls))
    ensures var s := LeaseRun(start, calls);
            && s.sentRecords + 1 < RECORD_LIMIT
            && s.sentPlaintext + CLOSE_RECORD_LEN < BYTE_LIMIT
            && LeaseWriteClose(s, reason, handoff).result.Ok?
            && SessionRuns.CloseIn(LeaseWriteClose(s, reason, handoff).result.value) == Some(Closing(reason, handoff))
  {
    hide LeaseRun, SessionRuns.CloseIn, CloseRecord, Plain;
    LeaseRunKeeps(start, calls);
    var s := LeaseRun(start, calls);
    SessionRuns.CloseFrameReads(s.transport.value, Closing(reason, handoff));
  }

  /** A limit error carries the last Close. */
  predicate Tells<T>(done: Done<T>) {
    done.result.Err? && done.result.error.reason == RecordLimit ==>
      && done.result.error.closeFrame.Some?
      && SessionRuns.CloseIn(done.result.error.closeFrame.value) == Some(LimitClosing())
  }

  /** No parser's refusal looks like a limit error. */
  lemma ParsersNeverLimit(bytes: seq<byte>, r: Record, role: byte, binding: LeaseBinding, counter: u64)
    ensures DecodeRecord(bytes) != Err(RecordLimit)
    ensures ValidateComplete(r, Heartbeat) != Err(RecordLimit)
    ensures ValidateComplete(r, RecordKind.Close) != Err(RecordLimit)
    ensures ParseClose(r.data) != Err(RecordLimit)
    ensures ParseHeartbeat(r.data, role, binding) != Err(RecordLimit)
    ensures HeartbeatPayload(role, binding, counter) != Err(RecordLimit)
  {
    hide Cbor.Encode, Cbor.ReadU8, Cbor.ReadU16, Cbor.ReadU64, Cbor.ReadBytes, Cbor.ReadFixed, Cbor.ExpectU8,
         Cbor.ExpectMap, HeartbeatItems;
  }

  lemma SealTells(s: LeaseState, r: Record)
    requires Kept(s) && Alive(s) && |r.data| <= RECORD_DATA_MAX
    ensures Tells(SealRecord(s, r))
  {
    hide SessionRuns.CloseIn, CloseRecord, Plain;
    SessionRuns.CloseFrameReads(s.transport.value, LimitClosing());
  }

  lemma OpenTells(s: LeaseState, frame: Frame)
    requires Kept(s) && Alive(s)
    ensures Tells(OpenRecord(s, frame))
  {
    hide SessionRuns.CloseIn, CloseRecord, Plain, DecodeRecord;
    if Opens(s.transport.value, frame) {
      ParsersNeverLimit(frame.plaintext, CloseRecord(LimitClosing()), 0, s.binding, 0);
    }
    SessionRuns.CloseFrameReads(AfterOpen(s.transport.value), LimitClosing());
  }

  lemma ReadTells(s: LeaseState, frame: Frame, role: byte)
    requires Kept(s) && Alive(s)
    ensures Tells(ReadHeartbeat(s, frame, role)) && Tells(LeaseReadClose(s, frame))
  {
    hide SessionRuns.CloseIn, OpenRecord, ValidateComplete, ParseHeartbeat, ParseClose;
    OpenTells(s, frame);
    var read := OpenRecord(s, frame);
    if read.result.Ok? {
      ParsersNeverLimit([], read.result.value, role, read.state.binding, 0);
    }
  }

  lemma WriteTells(s: LeaseState, role: byte, counter: u64)
    requires Kept(s) && Alive(s)
    ensures Tells(WriteHeartbeat(s, role, counter))
  {
    hide SessionRuns.CloseIn, SealRecord, HeartbeatItems, Cbor.Encode;
    ParsersNeverLimit([], CloseRecord(LimitClosing()), role, s.binding, counter);
    if HeartbeatPayload(role, s.binding, counter).Ok? {
      SealTells(s, BeatRecord(role, s.binding, counter));
    }
  }

  /** A limit error on an open lease always carries a Close frame. */
  lemma LeaseLimitCloses(s: LeaseState, call: LeaseCall)
    requires Kept(s) && Alive(s)
    requires LeaseDo(s, call).failure.Some? && LeaseDo(s, call).failure.value.reason == RecordLimit
    ensures var e := LeaseDo(s, call);
            && e.state.closed && |e.frames| == 1
            && SessionRuns.CloseIn(e.frames[0]) == Some(LimitClosing())
  {
    hide SessionRuns.CloseIn, SealRecord, WriteHeartbeat, ReadHeartbeat, OpenRecord, ValidateComplete, ParseClose;
    match call {
      case Ask(counter) => WriteTells(s, REQUEST_ROLE, counter);
      case Reply(counter) => WriteTells(s, REPLY_ROLE, counter);
      case TakeRequest(frame) => ReadTells(s, frame, REQUEST_ROLE);
      case TakeReply(frame) => ReadTells(s, frame, REPLY_ROLE);
      case Bye(reason, handoff) => SealTells(s, CloseRecord(Closing(reason, handoff)));
      case TakeBye(frame) => ReadTells(s, frame, REPLY_ROLE);
    }
  }

  // ---- One direction between two honest ends ---------------------------

  /** `role` is the role byte its heartbeats carry. */
  datatype Lane = Lane(
    role: byte, s: LeaseState, r: LeaseState, queue: seq<Frame>, sent: seq<u64>, got: seq<u64>, close: Option<Closing>)

  predicate Aligned(l: Lane) {
    && 1 <= l.role <= 2
    && Alive(l.r)
    && l.s.binding == l.r.binding
    && (Alive(l.s) ==> l.s.transport.value.key == l.r.transport.value.key
                       && l.s.transport.value.initiator != l.r.transport.value.initiator)
    && (!l.s.closed ==> l.close.None?)
    && |l.got| <= |l.sent| <= |l.got| + 1
    && (forall i :: 0 <= i < |l.sent| ==> l.sent[i] > 0)
  }

  function Beats(l: Lane): (rs: seq<Record>)
    requires Aligned(l)
    ensures Fitting(rs)
  {
    if |l.got| < |l.sent| then [BeatRecord(l.role, l.r.binding, l.sent[|l.got|])] else []
  }

  function Goodbye(l: Lane): (rs: seq<Record>)
    ensures Fitting(rs)
  {
    if l.close.Some? then [CloseRecord(l.close.value)] else []
  }

  function Flying(l: Lane): (rs: seq<Record>)
    requires Aligned(l)
    ensures Fitting(rs)
  {
    Beats(l) + Goodbye(l)
  }

  function Sender(l: Lane): Transport
    requires Alive(l.r)
  {
    Transport(l.r.transport.value.key, !l.r.transport.value.initiator, l.r.receivedRecords, 0)
  }

  predicate Carrying(l: Lane) {
    && Aligned(l)
    && l.queue == L.Frames(Sender(l), Flying(l))
    && l.s.sentRecords == l.r.receivedRecords + |Flying(l)| < RECORD_LIMIT
    && l.s.sentPlaintext == l.r.receivedPlaintext + L.Weight(Flying(l)) < BYTE_LIMIT
  }

  lemma LaneStarts(l: Lane)
    requires 1 <= l.role <= 2 && Alive(l.r) && Alive(l.s) && l.s.binding == l.r.binding
    requires l.s.transport.value.key == l.r.transport.value.key
    requires l.s.transport.value.initiator != l.r.transport.value.initiator
    requires l.sent == [] && l.got == [] && l.queue == [] && l.close.None?
    requires l.s.sentRecords == l.r.receivedRecords <= 1
    requires l.s.sentPlaintext == l.r.receivedPlaintext <= 212
    ensures Carrying(l)
  {
    L.FramesNone(Sender(l));
  }

  lemma SenderExtends(l: Lane, l': Lane, more: Record)
    requires Carrying(l) && Aligned(l') && |more.data| <= RECORD_DATA_MAX
    requires l'.r == l.r && l'.role == l.role && Alive(l.s)
    requires Flying(l') == Flying(l) + [more]
    requires l.s.transport.value.sendNonce == l.s.sentRecords
    requires l'.queue == l.queue + [SealFrame(l.s.transport.value, Plain(more))]
    requires l'.s.sentRecords == l.s.sentRecords + 1 < RECORD_LIMIT
    requires l'.s.sentPlaintext == l.s.sentPlaintext + RECORD_HEADER_LEN + |more.data| < BYTE_LIMIT
    ensures Carrying(l')
  {
    hide Flying, L.Frames, L.Weight, Plain;
    var n := |Flying(l)|;
    var t := L.Later(Sender(l), n);
    assert Fitting([more]);
    L.FramesAppend(Sender(l), Flying(l), [more]);
    L.FramesNone(L.Later(t, 1));
    L.FramesHead(t, more, []);
    assert [more] + [] == [more];
  }

  /** The front frame always opens, counts and decodes. */
  lemma FrontOpens(l: Lane)
    requires Carrying(l) && Kept(l.r) && l.queue != []
    ensures Flying(l) != []
    ensures var r := Flying(l)[0];
            OpenRecord(l.r, l.queue[0]) == Done(Read(l.r, r), Ok(r))
  {
    hide Flying, L.Weight, LeaseLimit, EncodeRecord, DecodeRecord, Plain;
    var rs := Flying(l);
    if rs == [] {
      L.FramesNone(Sender(l));
    } else {
      var r, rest := rs[0], rs[1..];
      assert [r] + rest == rs;
      L.FramesHead(Sender(l), r, rest);
      PlainFacts(r);
    }
  }

  function Read(s: LeaseState, r: Record): LeaseState
    requires s.transport.Some?
  {
    s.(transport := Some(AfterOpen(s.transport.value)),
       receivedRecords := s.receivedRecords + 1,
       receivedPlaintext := s.receivedPlaintext + RECORD_HEADER_LEN + |r.data|)
  }

  /** Taking the heartbeat at the front leaves the rest. */
  lemma ReceiverTakes(l: Lane, r': LeaseState)
    requires Carrying(l) && |l.got| < |l.sent| && l.queue != []
    requires var read := Read(l.r, Flying(l)[0]);
             r' == read.(pending := r'.pending, last := r'.last)
    ensures Carrying(l.(r := r', got := l.got + [l.sent[|l.got|]], queue := l.queue[1..]))
  {
    hide L.Weight, L.Frames, BeatRecord, CloseRecord;
    var l' := l.(r := r', got := l.got + [l.sent[|l.got|]], queue := l.queue[1..]);
    assert Flying(l) == [Flying(l)[0]] + Flying(l');
    L.FramesHead(Sender(l), Flying(l)[0], Flying(l'));
  }

  lemma LaneUntouched(l: Lane, s': LeaseState, r': LeaseState)
    requires Carrying(l)
    requires s'.binding == l.s.binding && (Alive(s') ==> Alive(l.s) && SameEnd(s', l.s)) && (l.s.closed ==> s'.closed)
    requires s'.sentRecords == l.s.sentRecords && s'.sentPlaintext == l.s.sentPlaintext
    requires Alive(r') && SameEnd(r', l.r) && r'.binding == l.r.binding
    requires r'.receivedRecords == l.r.receivedRecords && r'.receivedPlaintext == l.r.receivedPlaintext
    ensures Carrying(l.(s := s', r := r'))
  {
    hide L.Weight, L.Frames, BeatRecord, CloseRecord;
  }

  predicate SameEnd(a: LeaseState, b: LeaseState)
    requires a.transport.Some? && b.transport.Some?
  {
    a.transport.value.key == b.transport.value.key && a.transport.value.initiator == b.transport.value.initiator
  }

  // ---- What one call does ----------------------------------------------

  predicate Quiet(s: LeaseState, e: LeaseEffect) {
    && e.frames == [] && e.taken.None? && e.failure.Some?
    && e.state.closed
    && e.state.binding == s.binding
    && e.state.sentRecords == s.sentRecords && e.state.sentPlaintext == s.sentPlaintext
  }

  predicate Ends(s: LeaseState, e: LeaseEffect) {
    && Alive(s) && e.state.closed
    && e.taken.None?
    && e.state.binding == s.binding
    && e.state.sentRecords == s.sentRecords + 1
    && e.state.sentPlaintext == s.sentPlaintext + CLOSE_RECORD_LEN
    && |e.frames| == 1 && SessionRuns.CloseIn(e.frames[0]).Some?
    && e.frames[0] == SealFrame(s.transport.value, L.CloseText(SessionRuns.CloseIn(e.frames[0]).value))
  }

  predicate Beat(s: LeaseState, e: LeaseEffect, role: byte, counter: u64, pending: Option<u64>, last: u64) {
    && Alive(s) && 1 <= role <= 2 && counter > 0
    && e.failure.None? && e.taken.None?
    && var r := BeatRecord(role, s.binding, counter);
       && e.frames == [SealFrame(s.transport.value, Plain(r))]
       && e.state == CountSent(s, RECORD_HEADER_LEN + |r.data|).(pending := pending, last := last)
       && SessionRuns.CloseIn(e.frames[0]).None?
  }

  lemma BeatIsNoClose(t: Transport, role: byte, binding: LeaseBinding, counter: u64)
    requires 1 <= role <= 2 && counter > 0
    ensures SessionRuns.CloseIn(SealFrame(t, Plain(BeatRecord(role, binding, counter)))).None?
  {
    hide Plain, DecodeRecord, BeatRecord;
    PlainFacts(BeatRecord(role, binding, counter));
  }

  lemma AskCall(s: LeaseState, counter: u64)
    requires Kept(s)
    ensures var e := LeaseDo(s, Ask(counter));
            if e.failure.None?
            then s.pending.None? && counter > s.last && Beat(s, e, REQUEST_ROLE, counter, Some(counter), s.last)
            else Quiet(s, e) || Ends(s, e)
  {
    hide SessionRuns.CloseIn, CloseRecord, Plain, BeatRecord, HeartbeatItems;
    WritesBeat(s, REQUEST_ROLE, counter);
  }

  lemma ReplyCall(s: LeaseState, counter: u64)
    requires Kept(s)
    ensures var e := LeaseDo(s, Reply(counter));
            if e.failure.None? then s.pending == Some(counter) && Beat(s, e, REPLY_ROLE, counter, None, counter)
            else Quiet(s, e) || Ends(s, e)
  {
    hide SessionRuns.CloseIn, CloseRecord, Plain, BeatRecord, HeartbeatItems;
    WritesBeat(s, REPLY_ROLE, counter);
  }

  lemma WritesBeat(s: LeaseState, role: byte, counter: u64)
    requires Kept(s) && 1 <= role <= 2
    ensures var wrote := WriteHeartbeat(s, role, counter);
            if wrote.result.Err? then
              var e := Refused(wrote.(state := Shut(wrote.state))); Quiet(s, e) || Ends(s, e)
            else Beat(s, Wrote(wrote), role, counter, s.pending, s.last)
  {
    hide SessionRuns.CloseIn, CloseRecord, Plain, BeatRecord, HeartbeatItems;
    if Alive(s) {
      SessionRuns.CloseFrameReads(s.transport.value, LimitClosing());
      if counter > 0 {
        BeatIsNoClose(s.transport.value, role, s.binding, counter);
      }
    }
  }

  lemma ByeCall(s: LeaseState, reason: CloseReason, handoff: Handoff)
    requires Kept(s)
    ensures var e := LeaseDo(s, Bye(reason, handoff)); Quiet(s, e) || Ends(s, e)
  {
    hide SessionRuns.CloseIn, CloseRecord, Plain;
    if Alive(s) {
      SessionRuns.CloseFrameReads(s.transport.value, Closing(reason, handoff));
    }
  }

  lemma SenderEnds(l: Lane, e: LeaseEffect)
    requires Carrying(l) && Kept(l.s) && (Quiet(l.s, e) || Ends(l.s, e))
    ensures Carrying(l.(s := e.state, queue := l.queue + e.frames, close := Noted(l.close, e.frames)))
  {
    hide SessionRuns.CloseIn, CloseRecord, Plain, BeatRecord, L.Weight, L.Frames;
    if Ends(l.s, e) {
      var closing := SessionRuns.CloseIn(e.frames[0]).value;
      assert e.frames == [e.frames[0]];
      var l' := l.(s := e.state, queue := l.queue + e.frames, close := Some(closing));
      assert Flying(l') == Flying(l) + [CloseRecord(closing)];
      SenderExtends(l, l', CloseRecord(closing));
    } else {
      assert l.queue + e.frames == l.queue;
      LaneUntouched(l, e.state, l.r);
    }
  }

  lemma SenderBeats(l: Lane, e: LeaseEffect, counter: u64, pending: Option<u64>, last: u64)
    requires Carrying(l) && Kept(l.s) && Kept(e.state) && |l.sent| == |l.got|
    requires Beat(l.s, e, l.role, counter, pending, last)
    ensures Carrying(l.(s := e.state, sent := l.sent + [counter], queue := l.queue + e.frames))
  {
    hide SessionRuns.CloseIn, CloseRecord, Plain, BeatRecord, L.Weight, L.Frames;
    var l' := l.(s := e.state, sent := l.sent + [counter], queue := l.queue + e.frames);
    assert Flying(l') == Flying(l) + [BeatRecord(l.role, l.s.binding, counter)];
    SenderExtends(l, l', BeatRecord(l.role, l.s.binding, counter));
  }

  function Noted(close: Option<Closing>, frames: seq<Frame>): Option<Closing> {
    if frames != [] && SessionRuns.CloseIn(frames[0]).Some? then SessionRuns.CloseIn(frames[0]) else close
  }

  /** What reading the front frame as a heartbeat gives. */
  lemma FrontBeat(l: Lane)
    requires Carrying(l) && Kept(l.r) && l.queue != []
    ensures var read := ReadHeartbeat(l.r, l.queue[0], l.role);
            if |l.got| < |l.sent| then read == Done(Read(l.r, Flying(l)[0]), Ok(l.sent[|l.got|]))
            else read.result.Err? && read.result.error.closeFrame.None?
                 && SameOutbound(l.r, read.state)
  {
    hide OpenRecord, Plain, L.Frames, L.Weight, HeartbeatItems, ParseHeartbeat, ParseClose, ClosePayload;
    FrontOpens(l);
    if |l.got| < |l.sent| {
      var counter := l.sent[|l.got|];
      HeartbeatExact(HeartbeatPayload(l.role, l.r.binding, counter).value, l.role, l.r.binding, counter);
    } else {
      assert Flying(l)[0].kind.Close?;
    }
  }

  predicate SameOutbound(s: LeaseState, s': LeaseState) {
    s'.binding == s.binding && s'.sentRecords == s.sentRecords && s'.sentPlaintext == s.sentPlaintext
  }

  lemma FrontBye(l: Lane)
    requires Carrying(l) && Kept(l.r) && l.queue != []
    ensures var e := LeaseDo(l.r, TakeBye(l.queue[0]));
            e.frames == [] && e.taken.None? && e.state.closed && SameOutbound(l.r, e.state)
  {
    hide OpenRecord, Plain, L.Frames, L.Weight, Flying, ParseClose;
    FrontOpens(l);
  }

  /** Reading a request that is due; anything else ends the lease in silence. */
  lemma TakeRequestCall(l: Lane)
    requires Carrying(l) && Kept(l.r) && l.queue != [] && l.role == REQUEST_ROLE
    requires |l.got| < |l.sent| ==> l.r.pending.None? && l.sent[|l.got|] > l.r.last
    ensures var e := LeaseDo(l.r, TakeRequest(l.queue[0]));
            if |l.got| < |l.sent| then
              var counter := l.sent[|l.got|];
              e == LeaseEffect(Read(l.r, Flying(l)[0]).(pending := Some(counter)), [], Some(counter), None)
            else Quiet(l.r, e)
  {
    hide ReadHeartbeat, L.Frames, L.Weight, HeartbeatItems;
    FrontBeat(l);
  }

  lemma TakeReplyCall(l: Lane)
    requires Carrying(l) && Kept(l.r) && l.queue != [] && l.role == REPLY_ROLE
    requires |l.got| < |l.sent| ==> l.r.pending == Some(l.sent[|l.got|])
    ensures var e := LeaseDo(l.r, TakeReply(l.queue[0]));
            if |l.got| < |l.sent| then
              var counter := l.sent[|l.got|];
              e == LeaseEffect(Read(l.r, Flying(l)[0]).(pending := None, last := counter), [], Some(counter), None)
            else Quiet(l.r, e)
  {
    hide ReadHeartbeat, L.Frames, L.Weight, HeartbeatItems;
    FrontBeat(l);
  }

  lemma ClosedTakes(s: LeaseState, call: LeaseCall)
    requires s.closed && (call.TakeRequest? || call.TakeReply?)
    ensures Quiet(s, LeaseDo(s, call))
  {
    hide DecodeRecord, ParseHeartbeat, ParseClose;
  }
}
