/** What the two sides can get done: a message that may be sent is sent, reading
    the channel delivers everything sent, and so any conversation within the caps
    and quotas comes about in full. */
module Conversations {
  import opened Common
  import opened Terms
  import opened Payloads
  import opened Records
  import opened Noise
  import opened Session
  import opened SessionRuns
  import opened Lanes
  import opened Calls
  import opened TwoParty

  function Peer(role: Role): Role {
    if role.Target? then Broker else Target
  }

  /** The lane a side reads from. */
  function Into(w: World, role: Role): Lane {
    if role.Target? then Requests(w) else Responses(w)
  }

  /** Both Finished have been exchanged, as far as this side knows. */
  predicate Talks(c: Core) {
    Usable(c) && c.sentFinished && c.gotFinished
  }

  // ---- Runs one after the other ----------------------------------------

  lemma {:induction false} ReachesOn(w: World, first: seq<Act>, mid: World, more: seq<Act>, end: World)
    requires Reaches(w, first, mid) && Reaches(mid, more, end)
    ensures Reaches(w, first + more, end)
    decreases |first|
  {
    hide Next, Enabled;
    if first == [] {
      assert first + more == more;
    } else {
      assert (first + more)[1..] == first[1..] + more;
      ReachesOn(Next(w, first[0]), first[1..], mid, more, end);
    }
  }

  // ---- Reading ---------------------------------------------------------

  /** The run in which only `role` moved, and only by reading. */
  predicate OnlyRead(w: World, v: World, role: Role) {
    && OnlyMoved(w, v, role)
    && var c, c' := CoreOf(w, role), CoreOf(v, role);
       c'.sentRecords == c.sentRecords && c'.sentPlaintext == c.sentPlaintext && Talks(c')
  }

  /** Only `role` and the channel it reads have changed, and what it has taken. */
  predicate OnlyMoved(w: World, v: World, role: Role) {
    && (if role.Target? then v == w.(target := v.target, toTarget := v.toTarget, heard := v.heard)
        else v == w.(broker := v.broker, toBroker := v.toBroker, received := v.received))
    && Usable(CoreOf(v, role))
  }

  /** As far as sending and turns go, the core is as before. */
  predicate Same(c: Core, c': Core) {
    && c'.sentRecords == c.sentRecords && c'.sentPlaintext == c.sentPlaintext && c'.sentFinished == c.sentFinished
    && c'.peerTurn == c.peerTurn && c'.firstApplication == c.firstApplication
  }

  /** Every act of the run is a read by `role`, which accepts and says nothing. */
  predicate ReadsOn(w: World, role: Role, acts: seq<Act>)
    decreases |acts|
  {
    acts == []
    || (&& acts[0].role == role && (acts[0].call.Recv? || acts[0].call.RecvFinished?)
        && Enabled(w, acts[0]) && Accepted(w, acts[0]) && ReadsOn(Next(w, acts[0]), role, acts[1..]))
  }

  predicate Accepted(w: World, act: Act) {
    var e := Do(act.role, CoreOf(w, act.role), act.call);
    e.frames == [] && e.failure.None?
  }

  function ReadFront(w: World, role: Role): Act
    requires Incoming(w, role) != []
  {
    Act(role, Recv(Incoming(w, role)[0]))
  }

  lemma LaneCarries(w: World, role: Role)
    requires Inv(w) && Usable(CoreOf(w, role))
    ensures Carrying(Into(w, role)) && Sound(role, CoreOf(w, role)) && TwoParty.Flags(w)
    ensures Into(w, role).r == CoreOf(w, role) && Into(w, role).queue == Incoming(w, role)
    ensures Into(w, role).sent == SentTo(w, role) && Into(w, role).got == TakenBy(w, role)
    ensures Flowing(Into(w, role)) ==> CoreOf(w, role).peerTurn
    ensures Reader(Into(w, role)) == role
  {
    hide Carrying;
    if Flowing(Into(w, role)) {
      if role.Target? {
        TargetTurnsToRead(w);
      } else {
        BrokerTurnsToRead(w);
      }
    }
  }

  /** A message that has not been delivered has a fragment in the channel. */
  lemma FlowingIsQueued(l: Lane)
    requires Carrying(l) && l.r.gotFinished && Flowing(l)
    ensures l.queue != []
  {
    hide FragmentAt, FragmentsFrom, Weight;
    FrontFragment(l);
  }

  /** With everything delivered, nothing but a Close can be in the channel. */
  lemma DeliveredIsEmpty(l: Lane)
    requires Carrying(l) && l.r.gotFinished && !Flowing(l) && l.close.None?
    ensures l.queue == []
  {
    assert Flying(l) == [];
    FramesNone(Sender(l));
  }

  lemma ReadingAdvances(w: World, role: Role)
    requires Inv(w) && Talks(CoreOf(w, role)) && TakenBy(w, role) < SentTo(w, role)
    ensures Incoming(w, role) != []
    ensures var v := Next(w, ReadFront(w, role));
            && Accepted(w, ReadFront(w, role))
            && Inv(v) && OnlyRead(w, v, role) && Incoming(v, role) == Incoming(w, role)[1..]
            && TakenBy(v, role) <= SentTo(v, role)
  {
    hide Inv, Carrying, TwoParty.Flags, Sound, Do;
    LaneCarries(w, role);
    var l := Into(w, role);
    FlowingIsQueued(l);
    StepInv(w, ReadFront(w, role));
    FragmentTaken(l);
    assert w.toBroker + [] == w.toBroker && w.toTarget + [] == w.toTarget;
    TakenIsPrefix(Next(w, ReadFront(w, role)), role);
  }

  lemma TakenIsPrefix(w: World, role: Role)
    requires Inv(w)
    ensures TakenBy(w, role) <= SentTo(w, role)
  {
    hide Inbound, Outbound, Sound;
  }

  /** What reading a fragment leaves. */
  lemma FragmentTaken(l: Lane)
    requires Carrying(l) && l.queue != [] && Flowing(l) && Talks(l.r) && l.r.peerTurn
    ensures var e := Do(Reader(l), l.r, Recv(l.queue[0]));
            && e.frames == [] && e.failure.None? && Talks(e.core)
            && e.core.sentRecords == l.r.sentRecords && e.core.sentPlaintext == l.r.sentPlaintext
  {
    hide Do, Carrying, FragmentsFrom, FragmentAt, Frames, Weight, Flying;
    ReadApplicationCall(l);
  }

  /** Reading on delivers everything that was sent. */
  lemma {:induction false} ReadsAll(w: World, role: Role) returns (acts: seq<Act>, v: World)
    requires Inv(w) && Talks(CoreOf(w, role)) && TakenBy(w, role) <= SentTo(w, role)
    ensures Reaches(w, acts, v) && Inv(v) && ReadsOn(w, role, acts) && |acts| <= |Incoming(w, role)|
    ensures OnlyRead(w, v, role) && Incoming(v, role) == Incoming(w, role)[|acts|..]
    ensures TakenBy(v, role) == SentTo(v, role) == SentTo(w, role)
    decreases |Incoming(w, role)|
  {
    hide Inv, Next, Accepted;
    if TakenBy(w, role) == SentTo(w, role) {
      acts, v := [], w;
    } else {
      ReadingAdvances(w, role);
      var act := ReadFront(w, role);
      var more;
      more, v := ReadsAll(Next(w, act), role);
      acts := [act] + more;
      assert acts[1..] == more;
    }
  }

  lemma StaysReachable(w: World, acts: seq<Act>, v: World)
    requires Reachable(w) && Reaches(w, acts, v)
    ensures Reachable(v)
  {
    hide Reaches, NewTarget, NewBroker;
    var bindingT: SessionBinding, pskT: Bytes32, bindingB: SessionBinding, pskB: Bytes32, before: seq<Act> :|
      Starting(bindingT, pskT, bindingB, pskB, before, w);
    ReachesOn(StartWorld(NewTarget(bindingT, pskT).value, NewBroker(bindingB, pskB).value), before, w, acts, v);
    assert Starting(bindingT, pskT, bindingB, pskB, before + acts, v);
  }

  /** Before it has the other side's Finished, a side has that in front of it, or
      nothing but a Close. */
  lemma BeforeFinished(w: World, role: Role)
    requires Inv(w) && Usable(CoreOf(w, role)) && !CoreOf(w, role).gotFinished
    ensures var l := Into(w, role);
            if l.s.sentFinished then Incoming(w, role) != []
            else SentTo(w, role) == TakenBy(w, role) == [] && (l.close.None? ==> Incoming(w, role) == [])
  {
    hide Carrying, TwoParty.Flags, Sound;
    LaneCarries(w, role);
    HasSpoken(w);
    TakenIsPrefix(w, role);
    var l := Into(w, role);
    if l.s.sentFinished {
      FinishedIsQueued(l);
    } else if l.close.None? {
      NothingIsEmpty(l);
    }
  }

  lemma FinishedIsQueued(l: Lane)
    requires Carrying(l) && !l.r.gotFinished && l.s.sentFinished
    ensures l.queue != []
  {
    hide FragmentsFrom, FinishedRecord, Weight;
  }

  lemma NothingIsEmpty(l: Lane)
    requires Carrying(l) && !l.s.sentFinished && l.close.None?
    ensures l.queue == []
  {
    assert Flying(l) == [];
    FramesNone(Sender(l));
  }

  /** The frame at the front is the other side's Finished, and it is taken. */
  lemma FinishedIsTaken(w: World, role: Role)
    requires Inv(w) && Usable(CoreOf(w, role)) && !CoreOf(w, role).gotFinished
    requires role.Target? ==> CoreOf(w, role).sentFinished
    requires Into(w, role).s.sentFinished && Incoming(w, role) != []
    ensures var v := Next(w, Act(role, RecvFinished(Incoming(w, role)[0])));
            && Accepted(w, Act(role, RecvFinished(Incoming(w, role)[0])))
            && Inv(v) && Incoming(v, role) == Incoming(w, role)[1..] && TakenBy(v, role) == TakenBy(w, role)
            && OnlyMoved(w, v, role) && CoreOf(v, role).gotFinished && Same(CoreOf(w, role), CoreOf(v, role))
  {
    hide Inv, Carrying, TwoParty.Flags, Sound, Do;
    LaneCarries(w, role);
    var act := Act(role, RecvFinished(Incoming(w, role)[0]));
    StepInv(w, act);
    FinishedReadsOff(Into(w, role));
    assert w.toBroker + [] == w.toBroker && w.toTarget + [] == w.toTarget;
  }

  lemma FinishedReadsOff(l: Lane)
    requires Carrying(l) && l.queue != [] && Usable(l.r) && !l.r.gotFinished && l.s.sentFinished
    requires l.from.Broker? ==> l.r.sentFinished
    ensures var e := Do(Reader(l), l.r, RecvFinished(l.queue[0]));
            && e.frames == [] && e.failure.None? && e.delivered.None?
            && Usable(e.core) && e.core.gotFinished && Same(l.r, e.core)
  {
    hide ReadFinished, Carrying, Flying, FragmentsFrom, Frames, Weight;
    CoreReadsFinished(l);
    LaneIsUsable(l);
  }

  lemma LaneIsUsable(l: Lane)
    requires Carrying(l)
    ensures Usable(l.r) && Aligned(l)
  {
  }

  /** This side has not moved. */
  predicate Aside(w: World, v: World, role: Role) {
    CoreOf(v, role) == CoreOf(w, role) && SentTo(v, role) == SentTo(w, role) && TakenBy(v, role) == TakenBy(w, role)
  }

  /** In every reachable world: a side that has sent its Finished and is open gets,
      by reading on, everything the other side has sent; unless a Close follows,
      the channel is empty then. */
  lemma ReadingDeliversAll(w: World, role: Role) returns (acts: seq<Act>, v: World)
    requires Reachable(w) && Usable(CoreOf(w, role)) && CoreOf(w, role).sentFinished
    ensures Reaches(w, acts, v) && Reachable(v) && ReadsOn(w, role, acts) && |acts| <= |Incoming(w, role)|
    ensures TakenBy(v, role) == SentTo(v, role) == SentTo(w, role)
    ensures Usable(CoreOf(v, role)) && Aside(w, v, Peer(role))
    ensures Into(w, role).close.None? ==> Incoming(v, role) == []
  {
    hide Inv, Next, Reachable, Carrying, Accepted;
    ReachableIsInv(w);
    TakenIsPrefix(w, role);
    if CoreOf(w, role).gotFinished {
      acts, v := ReadsAll(w, role);
      if Into(w, role).close.None? {
        ChannelIsEmpty(v, role);
      }
    } else {
      BeforeFinished(w, role);
      if Into(w, role).s.sentFinished {
        var act := Act(role, RecvFinished(Incoming(w, role)[0]));
        FinishedIsTaken(w, role);
        var w1 := Next(w, act);
        TakenIsPrefix(w1, role);
        var more;
        more, v := ReadsAll(w1, role);
        acts := [act] + more;
        assert acts[1..] == more;
        if Into(w, role).close.None? {
          ChannelIsEmpty(v, role);
        }
      } else {
        acts, v := [], w;
      }
    }
    StaysReachable(w, acts, v);
  }

  lemma ChannelIsEmpty(w: World, role: Role)
    requires Inv(w) && Talks(CoreOf(w, role)) && TakenBy(w, role) == SentTo(w, role) && Into(w, role).close.None?
    ensures Incoming(w, role) == []
  {
    hide Inv, Carrying;
    LaneCarries(w, role);
    DeliveredIsEmpty(Into(w, role));
  }

  // ---- Sending ---------------------------------------------------------

  /** Whether that much more can be sent from these counts, with a Close after it. */
  predicate Room(records: nat, bytes: nat, payload: seq<byte>)
    requires Sendable(payload)
  {
    var rs := FragmentsFrom(Application, payload, 0);
    records + |rs| + 1 < RECORD_LIMIT && bytes + Weight(rs) + CLOSE_RECORD_LEN < BYTE_LIMIT
  }

  /** At its turn, within the cap of its role and the quotas, opening only once. */
  predicate MaySend(role: Role, c: Core, payload: seq<byte>, opening: bool) {
    && Talks(c) && !c.peerTurn && c.firstApplication == (role.Target? || !opening)
    && 0 < |payload| <= SendCap(role, opening)
    && Room(c.sentRecords, c.sentPlaintext, payload)
  }

  lemma WriteSucceedsExactly(c: Core, payload: seq<byte>, cap: nat)
    requires cap <= RESPONSE_BYTES
    ensures WriteApplication(c, payload, cap).result.Ok? <==>
            && c.sentFinished && c.gotFinished && !c.peerTurn && 0 < |payload| <= cap
            && Usable(c) && Room(c.sentRecords, c.sentPlaintext, payload)
  {
    hide FragmentsFrom, AtLimit, SealAll, Plains, Volume;
  }

  /** A send succeeds exactly when it may be made. */
  lemma SendSucceedsExactly(role: Role, c: Core, payload: seq<byte>, opening: bool)
    ensures Do(role, c, Send(payload, opening)).failure.None? <==> MaySend(role, c, payload, opening)
  {
    hide WriteApplication, FragmentsFrom, Weight;
    var cap := if role.Target? then RESPONSE_BYTES else REQUEST_BYTES;
    WriteSucceedsExactly(c, payload, cap);
    WriteSucceedsExactly(c.(firstApplication := true), payload, cap);
  }

  function Parts(payload: seq<byte>): nat
    requires Sendable(payload)
  {
    |FragmentsFrom(Application, payload, 0)|
  }

  function PartsWeight(payload: seq<byte>): nat
    requires Sendable(payload)
  {
    Weight(FragmentsFrom(Application, payload, 0))
  }

  /** One message more has been sent by `role`, and nothing else has changed. */
  predicate OnlySent(w: World, v: World, role: Role, payload: seq<byte>) {
    && (if role.Target? then v == w.(target := v.target, toBroker := v.toBroker, answered := w.answered + [payload])
        else v == w.(broker := v.broker, toTarget := v.toTarget, asked := w.asked + [payload]))
    && var c, c' := CoreOf(w, role), CoreOf(v, role);
       && Talks(c') && Sendable(payload)
       && c'.sentRecords == c.sentRecords + Parts(payload)
       && c'.sentPlaintext == c.sentPlaintext + PartsWeight(payload)
  }

  lemma SendingSends(w: World, role: Role, payload: seq<byte>, opening: bool)
    requires Inv(w) && MaySend(role, CoreOf(w, role), payload, opening)
    ensures var v := Next(w, Act(role, Send(payload, opening)));
            Inv(v) && OnlySent(w, v, role, payload) && TakenBy(v, Peer(role)) <= SentTo(v, Peer(role))
  {
    hide Inv, Do, FragmentsFrom, Frames, Weight, Sound, CloseIn;
    var c := CoreOf(w, role);
    BothSound(w);
    SendSucceedsExactly(role, c, payload, opening);
    MessageCall(role, c, payload, opening);
    SpokenFrames(c.transport.value, payload);
    StepInv(w, Act(role, Send(payload, opening)));
    TakenIsPrefix(Next(w, Act(role, Send(payload, opening))), Peer(role));
    assert w.toTarget[0..] == w.toTarget && w.toBroker[0..] == w.toBroker;
  }

  lemma BothSound(w: World)
    requires Inv(w)
    ensures Sound(Target, w.target) && Sound(Broker, w.broker)
  {
  }

  lemma PeerHasFinished(w: World, role: Role)
    requires Inv(w) && Talks(CoreOf(w, role))
    ensures CoreOf(w, Peer(role)).sentFinished
  {
    hide Frames, Weight, FragmentsFrom;
  }

  /** A message delivered in full gives the turn to the side that got it. */
  lemma TurnPasses(w: World, v: World, role: Role)
    requires Inv(w) && !CoreOf(w, role).closed && !CoreOf(w, role).peerTurn
    requires Inv(v) && !CoreOf(v, Peer(role)).closed
    requires SentTo(v, role) == SentTo(w, role) && TakenBy(v, role) == TakenBy(w, role)
    requires |TakenBy(v, Peer(role))| == |SentTo(w, Peer(role))| + 1
    ensures !CoreOf(v, Peer(role)).peerTurn
  {
    hide Inbound, Outbound, Sound, Greeted, Admits;
  }

  /** In every reachable world: what a side may send is sent, and the other side,
      if it is open, gets it by reading on, and with it the turn. */
  lemma SentIsDelivered(w: World, role: Role, payload: seq<byte>, opening: bool) returns (acts: seq<Act>, v: World)
    requires Reachable(w) && MaySend(role, CoreOf(w, role), payload, opening) && Usable(CoreOf(w, Peer(role)))
    ensures acts != [] && acts[0] == Act(role, Send(payload, opening))
    ensures ReadsOn(Next(w, acts[0]), Peer(role), acts[1..])
    ensures Reaches(w, acts, v) && Reachable(v)
    ensures TakenBy(v, Peer(role)) == SentTo(w, Peer(role)) + [payload]
    ensures Usable(CoreOf(v, Peer(role))) && !CoreOf(v, Peer(role)).peerTurn
  {
    hide Inv, Next, Reachable, Room, Accepted;
    ReachableIsInv(w);
    SendingSends(w, role, payload, opening);
    PeerHasFinished(w, role);
    var act := Act(role, Send(payload, opening));
    var w1 := Next(w, act);
    assert Reaches(w1, [], w1);
    assert [act][1..] == [];
    StaysReachable(w, [act], w1);
    var more;
    more, v := ReadingDeliversAll(w1, Peer(role));
    acts := [act] + more;
    assert acts[1..] == more;
    StaysReachable(w, acts, v);
    ReachableIsInv(v);
    TurnPasses(w, v, role);
  }

  // ---- Whole conversations ---------------------------------------------

  /** Both sides are open and have heard everything; it is the Broker's turn. */
  predicate Idle(w: World) {
    && Inv(w) && Talks(w.target) && Talks(w.broker) && !w.broker.peerTurn
    && w.toTarget == [] && w.toBroker == [] && w.heard == w.asked && w.received == w.answered
    && w.targetClose.None? && w.brokerClose.None?
  }

  lemma IdleTurns(w: World)
    requires Idle(w)
    ensures w.broker.firstApplication <==> w.asked != []
    ensures |w.asked| == |w.answered|
  {
    hide Inbound, Outbound, Sound, Greeted, Admits;
  }

  /** A message on its way, read to the end. */
  lemma Passes(w: World, role: Role, payload: seq<byte>, opening: bool) returns (acts: seq<Act>, v: World)
    requires Inv(w) && MaySend(role, CoreOf(w, role), payload, opening) && Talks(CoreOf(w, Peer(role)))
    requires Incoming(w, role) == [] && w.targetClose.None? && w.brokerClose.None?
    ensures Reaches(w, acts, v) && Inv(v) && acts != []
    ensures OnlyPassed(w, v, role, payload)
  {
    hide Inv, Next, Room, Carrying;
    SendingSends(w, role, payload, opening);
    var act := Act(role, Send(payload, opening));
    var w1 := Next(w, act);
    var more;
    more, v := ReadsAll(w1, Peer(role));
    acts := [act] + more;
    assert acts[1..] == more;
    ChannelIsEmpty(v, Peer(role));
    TurnPasses(w, v, role);
  }

  predicate OnlyPassed(w: World, v: World, role: Role, payload: seq<byte>) {
    && Sendable(payload)
    && Talks(w.target) && Talks(w.broker) && Talks(v.target) && Talks(v.broker)
    && v.toTarget == [] && v.toBroker == [] && v.targetClose == w.targetClose && v.brokerClose == w.brokerClose
    && SentTo(v, Peer(role)) == TakenBy(v, Peer(role)) == SentTo(w, Peer(role)) + [payload]
    && SentTo(v, role) == SentTo(w, role) && TakenBy(v, role) == TakenBy(w, role)
    && !CoreOf(v, Peer(role)).peerTurn
    && CoreOf(v, role).sentRecords == CoreOf(w, role).sentRecords + Parts(payload)
    && CoreOf(v, role).sentPlaintext == CoreOf(w, role).sentPlaintext + PartsWeight(payload)
    && CoreOf(v, Peer(role)).sentRecords == CoreOf(w, Peer(role)).sentRecords
    && CoreOf(v, Peer(role)).sentPlaintext == CoreOf(w, Peer(role)).sentPlaintext
  }

  /** A request and its response. */
  lemma Exchange(w: World, request: seq<byte>, reply: seq<byte>) returns (acts: seq<Act>, v: World)
    requires Idle(w) && 0 < |request| <= SendCap(Broker, w.asked == []) && 0 < |reply| <= RESPONSE_BYTES
    requires Room(w.broker.sentRecords, w.broker.sentPlaintext, request)
    requires Room(w.target.sentRecords, w.target.sentPlaintext, reply)
    ensures Reaches(w, acts, v) && Idle(v)
    ensures v.asked == w.asked + [request] && v.answered == w.answered + [reply]
    ensures v.broker.sentRecords == w.broker.sentRecords + Parts(request)
    ensures v.broker.sentPlaintext == w.broker.sentPlaintext + PartsWeight(request)
    ensures v.target.sentRecords == w.target.sentRecords + Parts(reply)
    ensures v.target.sentPlaintext == w.target.sentPlaintext + PartsWeight(reply)
  {
    hide Inv, Next, Room, Reaches, Parts, PartsWeight;
    IdleTurns(w);
    var there, mid := Passes(w, Broker, request, w.asked == []);
    HasHeard(mid);
    var back;
    back, v := Passes(mid, Target, reply, false);
    acts := there + back;
    ReachesOn(w, there, mid, back, v);
  }

  lemma HasHeard(w: World)
    requires Inv(w) && !w.target.closed && w.heard != []
    ensures w.target.firstApplication
  {
    hide Inbound, Outbound, Sound, Greeted, Admits;
  }

  /** The payloads fit the quotas one after the other. */
  predicate Affords(records: nat, bytes: nat, payloads: seq<seq<byte>>)
    decreases |payloads|
  {
    payloads == []
    || (&& Sendable(payloads[0]) && Room(records, bytes, payloads[0])
        && Affords(records + Parts(payloads[0]), bytes + PartsWeight(payloads[0]), payloads[1..]))
  }

  /** What may be said in a session: the first request is smaller than later ones. */
  predicate Sayable(requests: seq<seq<byte>>, replies: seq<seq<byte>>, begun: bool) {
    && |requests| == |replies|
    && (forall i :: 0 <= i < |requests| ==> 0 < |requests[i]| <= SendCap(Broker, i == 0 && !begun))
    && (forall i :: 0 <= i < |replies| ==> 0 < |replies[i]| <= RESPONSE_BYTES)
  }

  lemma SayableFirst(requests: seq<seq<byte>>, replies: seq<seq<byte>>, begun: bool)
    requires Sayable(requests, replies, begun) && requests != []
    ensures replies != []
    ensures 0 < |requests[0]| <= SendCap(Broker, !begun) && 0 < |replies[0]| <= RESPONSE_BYTES
    ensures Sayable(requests[1..], replies[1..], true)
  {
  }

  lemma AffordsFirst(records: nat, bytes: nat, payloads: seq<seq<byte>>)
    requires Affords(records, bytes, payloads) && payloads != []
    ensures Sendable(payloads[0]) && Room(records, bytes, payloads[0])
    ensures Affords(records + Parts(payloads[0]), bytes + PartsWeight(payloads[0]), payloads[1..])
  {
    hide Room, Parts, PartsWeight;
  }

  lemma {:induction false} Converses(w: World, requests: seq<seq<byte>>, replies: seq<seq<byte>>)
    returns (acts: seq<Act>, v: World)
    requires Idle(w) && Sayable(requests, replies, w.asked != [])
    requires Affords(w.broker.sentRecords, w.broker.sentPlaintext, requests)
    requires Affords(w.target.sentRecords, w.target.sentPlaintext, replies)
    ensures Reaches(w, acts, v) && Idle(v)
    ensures v.asked == w.asked + requests && v.answered == w.answered + replies
    decreases |requests|
  {
    hide Idle, Next, Room, Parts, PartsWeight;
    if requests == [] {
      acts, v := [], w;
      assert w.asked + requests == w.asked && w.answered + replies == w.answered;
    } else {
      hide Reaches, Sayable, Affords;
      SayableFirst(requests, replies, w.asked != []);
      AffordsFirst(w.broker.sentRecords, w.broker.sentPlaintext, requests);
      AffordsFirst(w.target.sentRecords, w.target.sentPlaintext, replies);
      var first, mid := Exchange(w, requests[0], replies[0]);
      var more;
      more, v := Converses(mid, requests[1..], replies[1..]);
      acts := first + more;
      ReachesOn(w, first, mid, more, v);
      assert requests == [requests[0]] + requests[1..] && replies == [replies[0]] + replies[1..];
      Assoc(w.asked, [requests[0]], requests[1..]);
      Assoc(w.answered, [replies[0]], replies[1..]);
    }
  }

  // ---- From the first frame on -----------------------------------------

  /** No Finished record with its header is longer. */
  const FINISHED_MOST := RECORD_HEADER_LEN + 200

  /** The handshake is done and nothing else has happened. */
  predicate Met(w: World) {
    && Inv(w) && w.toTarget == [] && w.toBroker == [] && w.asked == [] && w.targetClose.None? && w.brokerClose.None?
    && Fresh(w.target) && Fresh(w.broker) && !w.broker.peerTurn
  }

  predicate Fresh(c: Core) {
    Usable(c) && !c.sentFinished && !c.gotFinished && c.sentRecords == c.sentPlaintext == 0
  }

  function Greetings(ctx: Noise.Context, hash: Bytes32): seq<Act> {
    [Act(Target, WriteHello), Act(Broker, ReadHello(Message1(ctx, []), hash)),
     Act(Target, ReadHello(Message2(ctx, [], hash), NoHash()))]
  }

  /** The worlds the handshake leads through. */
  function Greeting(k: nat, target: Core, broker: Core, ctx: Noise.Context, hash: Bytes32): World
    requires k <= 3
  {
    var asking := target.(handshake := Some(NewHandshake(true, ctx).(step := 1)));
    var w0 := StartWorld(target, broker);
    var w1 := w0.(target := asking, toBroker := [Message1(ctx, [])], hello := true);
    var w2 := w1.(broker := Ready(Broker, broker, hash), toBroker := [], toTarget := [Message2(ctx, [], hash)],
                  answer := Some(hash));
    if k == 0 then w0
    else if k == 1 then w1
    else if k == 2 then w2
    else w2.(target := Ready(Target, asking, hash), toTarget := [])
  }

  predicate New(target: Core, broker: Core, ctx: Noise.Context) {
    NewTarget(ctx.binding, ctx.psk) == Ok(target) && NewBroker(ctx.binding, ctx.psk) == Ok(broker)
  }

  lemma FirstGreeting(target: Core, broker: Core, ctx: Noise.Context, hash: Bytes32)
    requires New(target, broker, ctx)
    ensures var w, act := Greeting(0, target, broker, ctx, hash), Greetings(ctx, hash)[0];
            Enabled(w, act) && Next(w, act) == Greeting(1, target, broker, ctx, hash)
  {
    hide Do;
    NewIsSound(Target, ctx.binding, ctx.psk);
    HelloWritten(target);
  }

  lemma Answers(broker: Core, ctx: Noise.Context, hash: Bytes32)
    requires NewBroker(ctx.binding, ctx.psk) == Ok(broker)
    ensures Do(Broker, broker, ReadHello(Message1(ctx, []), hash))
            == Effect(Ready(Broker, broker, hash), [Message2(ctx, [], hash)], None, None)
  {
  }

  lemma ReadsAnswer(target: Core, ctx: Noise.Context, hash: Bytes32)
    requires target.handshake == Some(NewHandshake(true, ctx).(step := 1))
    ensures Do(Target, target, ReadHello(Message2(ctx, [], hash), NoHash()))
            == Effect(Ready(Target, target, hash), [], None, None)
  {
  }

  lemma HelloIsNoClose(frame: Frame)
    requires !frame.Sealed?
    ensures CloseIn(frame).None?
  {
  }

  lemma SecondGreeting(target: Core, broker: Core, ctx: Noise.Context, hash: Bytes32)
    requires New(target, broker, ctx)
    ensures var w, act := Greeting(1, target, broker, ctx, hash), Greetings(ctx, hash)[1];
            Enabled(w, act) && Next(w, act) == Greeting(2, target, broker, ctx, hash)
  {
    hide Do, NewTarget, NewBroker, CloseIn;
    HelloIsNoClose(Message2(ctx, [], hash));
    Answers(broker, ctx, hash);
  }

  lemma ThirdGreeting(target: Core, broker: Core, ctx: Noise.Context, hash: Bytes32)
    ensures var w, act := Greeting(2, target, broker, ctx, hash), Greetings(ctx, hash)[2];
            Enabled(w, act) && Next(w, act) == Greeting(3, target, broker, ctx, hash)
  {
    hide Do, CloseIn;
    ReadsAnswer(Greeting(2, target, broker, ctx, hash).target, ctx, hash);
  }

  lemma Greet(target: Core, broker: Core, ctx: Noise.Context, hash: Bytes32)
    requires New(target, broker, ctx)
    ensures Reaches(StartWorld(target, broker), Greetings(ctx, hash), Greeting(3, target, broker, ctx, hash))
    ensures Met(Greeting(3, target, broker, ctx, hash))
  {
    hide Inv, Next, Enabled;
    var acts := Greetings(ctx, hash);
    var w0, w1 := Greeting(0, target, broker, ctx, hash), Greeting(1, target, broker, ctx, hash);
    var w2, w3 := Greeting(2, target, broker, ctx, hash), Greeting(3, target, broker, ctx, hash);
    FirstGreeting(target, broker, ctx, hash);
    SecondGreeting(target, broker, ctx, hash);
    ThirdGreeting(target, broker, ctx, hash);
    assert acts[1..][0] == acts[1] && acts[1..][1..] == [acts[2]] && [acts[2]][1..] == [];
    assert Reaches(w3, [], w3);
    assert Reaches(w2, [acts[2]], w3);
    assert Reaches(w1, acts[1..], w3);
    StartInv(ctx.binding, ctx.psk, ctx.binding, ctx.psk, target, broker);
    ReachableInv(w0, acts, w3);
  }

  /** The Finished of a side goes out. */
  lemma FinishedGoes(w: World, role: Role)
    requires Inv(w) && Usable(CoreOf(w, role)) && !CoreOf(w, role).sentFinished
    requires role.Broker? ==> CoreOf(w, role).gotFinished
    requires CoreOf(w, role).sentRecords == CoreOf(w, role).sentPlaintext == 0
    ensures var v := Next(w, Act(role, SendFinished));
            && Inv(v)
            && (if role.Target? then v == w.(target := v.target, toBroker := v.toBroker)
                else v == w.(broker := v.broker, toTarget := v.toTarget))
            && |Incoming(v, Peer(role))| == |Incoming(w, Peer(role))| + 1
            && var c, c' := CoreOf(w, role), CoreOf(v, role);
               && Usable(c') && c'.sentFinished && c'.gotFinished == c.gotFinished && c'.peerTurn == c.peerTurn
               && c'.sentRecords == 1 && c'.sentPlaintext <= FINISHED_MOST
  {
    hide Inv, Do, Sound, CloseIn, Plain;
    var c := CoreOf(w, role);
    BothSound(w);
    StepInv(w, Act(role, SendFinished));
    FinishedSucceeds(role, c);
    FinishedLength(c.binding, WireRole(role), c.transport.value.key);
    FinishedFrame(role, c.transport.value, c.binding);
    assert w.toTarget[0..] == w.toTarget && w.toBroker[0..] == w.toBroker;
  }

  lemma FinishedSucceeds(role: Role, c: Core)
    requires Sound(role, c) && Usable(c) && !c.sentFinished && (role.Broker? ==> c.gotFinished)
    requires c.sentRecords == c.sentPlaintext == 0
    ensures Finishes(role, c, Do(role, c, SendFinished)) && Do(role, c, SendFinished).failure.None?
  {
    hide Plain, AtLimit, EncodeRecord, FinishedPayload, CloseRecord;
    FinishedLength(c.binding, WireRole(role), c.sessionHash.value);
    PlainFacts(FinishedRecord(role, c.binding, c.transport.value.key));
  }

  /** Both Finished are exchanged. */
  lemma ExchangeFinished(w: World) returns (acts: seq<Act>, v: World)
    requires Met(w)
    ensures Reaches(w, acts, v) && Idle(v) && v.asked == [] && v.answered == []
    ensures v.target.sentRecords == v.broker.sentRecords == 1
    ensures v.target.sentPlaintext <= FINISHED_MOST && v.broker.sentPlaintext <= FINISHED_MOST
  {
    hide Inv, Next;
    FinishedGoes(w, Target);
    var a1 := Act(Target, SendFinished);
    var w1 := Next(w, a1);
    FinishedIsTaken(w1, Broker);
    var a2 := Act(Broker, RecvFinished(Incoming(w1, Broker)[0]));
    var w2 := Next(w1, a2);
    FinishedGoes(w2, Broker);
    var a3 := Act(Broker, SendFinished);
    var w3 := Next(w2, a3);
    FinishedIsTaken(w3, Target);
    var a4 := Act(Target, RecvFinished(Incoming(w3, Target)[0]));
    v := Next(w3, a4);
    acts := [a1, a2, a3, a4];
    NothingYet(v);
    assert Reaches(v, [], v);
    assert [a4][1..] == [];
    assert Reaches(w3, [a4], v);
    assert [a3, a4][1..] == [a4];
    assert Reaches(w2, [a3, a4], v);
    assert [a2, a3, a4][1..] == [a3, a4];
    assert Reaches(w1, [a2, a3, a4], v);
    assert acts[1..] == [a2, a3, a4];
  }

  lemma NothingYet(w: World)
    requires Inv(w) && w.asked == []
    ensures w.heard == w.answered == w.received == []
  {
    hide Inbound, Outbound, Sound, Greeted, Admits;
  }

  lemma {:induction false} AffordsMore(records: nat, bytes: nat, most: nat, payloads: seq<seq<byte>>)
    requires bytes <= most && Affords(records, most, payloads)
    ensures Affords(records, bytes, payloads)
    decreases |payloads|
  {
    hide FragmentsFrom, Weight;
    if payloads != [] {
      AffordsMore(records + Parts(payloads[0]), bytes + PartsWeight(payloads[0]), most + PartsWeight(payloads[0]),
                  payloads[1..]);
    }
  }

  /** Two sides with one binding and secret can hold any conversation: whatever
      requests and responses, within their caps and together within the quotas,
      some run of their calls delivers them all, in order, and both stay open. */
  lemma AnyConversationComesAbout(binding: SessionBinding, psk: Bytes32, hash: Bytes32,
                                  requests: seq<seq<byte>>, replies: seq<seq<byte>>) returns (acts: seq<Act>, v: World)
    requires ValidGeneration(binding.generation) && ValidGeneration(binding.epoch)
    requires Sayable(requests, replies, false)
    requires Affords(1, FINISHED_MOST, requests) && Affords(1, FINISHED_MOST, replies)
    ensures NewTarget(binding, psk).Ok? && NewBroker(binding, psk).Ok?
    ensures Reaches(StartWorld(NewTarget(binding, psk).value, NewBroker(binding, psk).value), acts, v)
    ensures v.heard == v.asked == requests && v.received == v.answered == replies
    ensures Usable(v.target) && Usable(v.broker)
  {
    hide Inv, Next, Affords, Reaches, Greetings, Greeting, Met;
    var ctx := Noise.Context(binding, psk);
    var target, broker := NewTarget(binding, psk).value, NewBroker(binding, psk).value;
    Greet(target, broker, ctx, hash);
    var start, w1 := StartWorld(target, broker), Greeting(3, target, broker, ctx, hash);
    var greetings := Greetings(ctx, hash);
    var finishing, w2 := ExchangeFinished(w1);
    AffordsMore(1, w2.broker.sentPlaintext, FINISHED_MOST, requests);
    AffordsMore(1, w2.target.sentPlaintext, FINISHED_MOST, replies);
    var talk;
    talk, v := Converses(w2, requests, replies);
    ReachesOn(start, greetings, w1, finishing, w2);
    ReachesOn(start, greetings + finishing, w2, talk, v);
    acts := greetings + finishing + talk;
    assert [] + requests == requests && [] + replies == replies;
  }

  lemma ShortMessageFits(payload: seq<byte>)
    requires |payload| == 1
    ensures Affords(1, FINISHED_MOST, [payload])
  {
    FramesNone(Transport(NoHash(), true, 0, 0));
    FragmentsHead(Application, payload, 0);
    assert [payload][1..] == [];
  }

  /** One such: a request and a response of one byte each. */
  lemma SomethingIsHeard(binding: SessionBinding, psk: Bytes32, hash: Bytes32)
    requires ValidGeneration(binding.generation) && ValidGeneration(binding.epoch)
    ensures exists v :: Reachable(v) && v.heard == [[1]] && v.received == [[2]]
  {
    hide Reaches, NewTarget, NewBroker, Affords;
    ShortMessageFits([1]);
    ShortMessageFits([2]);
    var acts, v := AnyConversationComesAbout(binding, psk, hash, [[1]], [[2]]);
    assert Starting(binding, psk, binding, psk, acts, v);
  }
}
