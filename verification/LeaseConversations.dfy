/** What two honest ends of a lease get done: a heartbeat that may be asked is
    asked, answered and returned, and a Close is reported as it was written. */
module LeaseConversations {
  import opened Common
  import opened Terms
  import opened Payloads
  import opened Records
  import opened Noise
  import opened Session
  import opened Lease
  import opened LeasePair
  import opened LeaseRuns
  import SessionRuns

  // ---- One call --------------------------------------------------------

  /** Room for a heartbeat with a Close after it. */
  predicate Room(s: LeaseState, role: byte, counter: u64)
    requires 1 <= role <= 2 && counter > 0
  {
    HasRoom(s, RECORD_HEADER_LEN + |BeatRecord(role, s.binding, counter).data|, true)
  }

  lemma WriteSucceedsExactly(s: LeaseState, role: byte, counter: u64)
    requires 1 <= role <= 2
    ensures WriteHeartbeat(s, role, counter).result.Ok? <==> Alive(s) && counter > 0 && Room(s, role, counter)
  {
    hide Plain, HeartbeatItems, CloseRecord;
  }

  /** A heartbeat is asked exactly when the lease is open, none is pending, the
      counter is larger than the last and there is room. */
  lemma AskSucceedsExactly(s: LeaseState, counter: u64)
    ensures LeaseDo(s, Ask(counter)).failure.None? <==>
            Alive(s) && s.pending.None? && counter > s.last && Room(s, REQUEST_ROLE, counter)
  {
    hide WriteHeartbeat, BeatRecord;
    WriteSucceedsExactly(s, REQUEST_ROLE, counter);
  }

  /** And answered exactly when it is the one pending and there is room. */
  lemma ReplySucceedsExactly(s: LeaseState, counter: u64)
    ensures LeaseDo(s, Reply(counter)).failure.None? <==>
            Alive(s) && counter > 0 && s.pending == Some(counter) && Room(s, REPLY_ROLE, counter)
  {
    hide WriteHeartbeat, BeatRecord;
    WriteSucceedsExactly(s, REPLY_ROLE, counter);
  }

  // ---- Heartbeats ------------------------------------------------------

  lemma StepInv(w: World, act: Act)
    requires Inv(w) && Enabled(w, act)
    ensures Inv(Next(w, act))
  {
    hide Inv, LeaseDo, TargetActs, BrokerActs;
    if act.role.Target? {
      TargetStep(w, act.call);
    } else {
      BrokerStep(w, act.call);
    }
  }

  /** Both ends are open and everything asked has come back. */
  predicate Idle(w: World) {
    && Inv(w) && Alive(w.target) && Alive(w.broker)
    && w.toTarget == [] && w.toBroker == [] && w.asked == w.taken == w.replied == w.returned
  }

  /** No heartbeat record with its header is longer. */
  const BEAT_MOST := RECORD_HEADER_LEN + 200

  /** That many heartbeats more can be sent. */
  predicate Affords(s: LeaseState, beats: nat) {
    s.sentRecords + beats + 1 < RECORD_LIMIT && s.sentPlaintext + beats * BEAT_MOST + CLOSE_RECORD_LEN < BYTE_LIMIT
  }

  lemma IdleFacts(w: World)
    requires Idle(w)
    ensures w.target.pending.None? && w.broker.pending.None?
    ensures w.broker.last == w.target.last == LastOf(w.asked)
    ensures w.target.binding == w.broker.binding && Kept(w.target) && Kept(w.broker)
  {
    hide Kept, Increasing;
  }

  /** A heartbeat goes out. */
  predicate BeatSent(s: LeaseState, s': LeaseState) {
    && Alive(s') && s'.binding == s.binding
    && s'.sentRecords == s.sentRecords + 1 && s'.sentPlaintext <= s.sentPlaintext + BEAT_MOST
  }

  lemma AskGoes(w: World, counter: u64)
    requires Idle(w) && counter > w.broker.last && Affords(w.broker, 1)
    ensures var v := Next(w, Act(Broker, Ask(counter)));
            && Inv(v) && BeatSent(w.broker, v.broker) && v.broker.pending == Some(counter)
            && |v.toTarget| == 1
            && v == w.(broker := v.broker, toTarget := v.toTarget, asked := w.asked + [counter])
  {
    hide Inv, LeaseDo, BeatRecord;
    IdleFacts(w);
    AskSucceedsExactly(w.broker, counter);
    AskCall(w.broker, counter);
    StepInv(w, Act(Broker, Ask(counter)));
    assert w.toBroker[0..] == w.toBroker;
  }

  /** The Target takes what is in front of it. */
  function AfterTaking(v: World): World
    requires v.toTarget != []
  {
    Next(v, Act(Target, TakeRequest(v.toTarget[0])))
  }

  lemma RequestComes(w: World, v: World, counter: u64)
    requires Idle(w) && Inv(v) && |v.toTarget| == 1 && Alive(v.broker)
    requires v == w.(broker := v.broker, toTarget := v.toTarget, asked := w.asked + [counter])
    ensures var u := AfterTaking(v);
            && Inv(u) && Alive(u.target) && u.target.pending == Some(counter) && u.target.binding == w.target.binding
            && u.target.sentRecords == w.target.sentRecords && u.target.sentPlaintext == w.target.sentPlaintext
            && u == v.(target := u.target, toTarget := [], taken := w.taken + [counter])
  {
    hide LeaseDo, Carrying, Kept;
    var call := TakeRequest(v.toTarget[0]);
    StepInv(v, Act(Target, call));
    TargetTakes(v, call);
    TargetAwaits(v);
    TakesKeep(v);
    assert v.asked[|v.taken|] == counter;
    assert v.toBroker + [] == v.toBroker && v.toTarget[1..] == [];
  }

  lemma TakesKeep(v: World)
    requires Inv(v) && Alive(v.target) && v.toTarget != [] && |v.taken| < |v.asked|
    ensures var e := LeaseDo(v.target, TakeRequest(v.toTarget[0]));
            && e.frames == [] && Alive(e.state) && e.state.binding == v.target.binding
            && e.state.sentRecords == v.target.sentRecords && e.state.sentPlaintext == v.target.sentPlaintext
            && e.state.pending == Some(v.asked[|v.taken|])
  {
    hide LeaseDo, Carrying, Kept, Increasing, Flying;
    TargetAwaits(v);
    TakeRequestCall(Requests(v));
    ReadAlive(Requests(v));
  }

  lemma ReadAlive(l: Lane)
    requires Carrying(l) && Alive(l.r) && l.queue != [] && |l.got| < |l.sent|
    ensures Flying(l) != []
    ensures var s := LeasePair.Read(l.r, Flying(l)[0]);
            && Alive(s) && s.binding == l.r.binding
            && s.sentRecords == l.r.sentRecords && s.sentPlaintext == l.r.sentPlaintext
  {
  }

  /** The request has come and is answered. */
  lemma ReplyGoes(w: World, u: World, counter: u64)
    requires Inv(u) && Alive(u.target) && u.target.pending == Some(counter) && counter > 0 && Affords(u.target, 1)
    requires u.toBroker == []
    ensures var v := Next(u, Act(Target, Reply(counter)));
            && Inv(v) && BeatSent(u.target, v.target) && |v.toBroker| == 1
            && v == u.(target := v.target, toBroker := v.toBroker, replied := u.replied + [counter])
  {
    hide Inv, LeaseDo, BeatRecord;
    KeptEnds(u);
    ReplySucceedsExactly(u.target, counter);
    ReplyCall(u.target, counter);
    StepInv(u, Act(Target, Reply(counter)));
    assert u.toTarget[0..] == u.toTarget;
  }

  lemma KeptEnds(w: World)
    requires Inv(w)
    ensures Kept(w.target) && Kept(w.broker)
  {
  }

  lemma ReplyComes(v: World, counter: u64)
    requires Inv(v) && Alive(v.broker) && |v.toBroker| == 1 && v.replied == v.returned + [counter]
    ensures var u := Next(v, Act(Broker, TakeReply(v.toBroker[0])));
            && Inv(u) && Alive(u.broker) && u.broker.binding == v.broker.binding
            && u.broker.sentRecords == v.broker.sentRecords && u.broker.sentPlaintext == v.broker.sentPlaintext
            && u == v.(broker := u.broker, toBroker := [], returned := v.replied)
  {
    hide LeaseDo, Carrying, Kept, Increasing, Flying;
    var call := TakeReply(v.toBroker[0]);
    StepInv(v, Act(Broker, call));
    BrokerTakes(v, call);
    BrokerAwaits(v);
    TakeReplyCall(Responses(v));
    ReadAlive(Responses(v));
    assert v.toTarget + [] == v.toTarget && v.toBroker[1..] == [];
  }

  /** One heartbeat there and back. */
  lemma BeatPasses(w: World, counter: u64) returns (acts: seq<Act>, v: World)
    requires Idle(w) && counter > w.broker.last && Affords(w.broker, 1) && Affords(w.target, 1)
    ensures Reaches(w, acts, v) && Idle(v) && v.asked == w.asked + [counter]
    ensures BeatSent(w.broker, v.broker) && BeatSent(w.target, v.target)
  {
    hide Inv, Next, Reaches, Affords;
    AskGoes(w, counter);
    var a1 := Act(Broker, Ask(counter));
    var w1 := Next(w, a1);
    RequestComes(w, w1, counter);
    var a2 := Act(Target, TakeRequest(w1.toTarget[0]));
    var w2 := Next(w1, a2);
    SameRoom(w.target, w2.target);
    ReplyGoes(w1, w2, counter);
    var a3 := Act(Target, Reply(counter));
    var w3 := Next(w2, a3);
    ReplyComes(w3, counter);
    var a4 := Act(Broker, TakeReply(w3.toBroker[0]));
    v := Next(w3, a4);
    acts := [a1, a2, a3, a4];
    FourSteps(w, a1, a2, a3, a4);
  }

  lemma SameRoom(s: LeaseState, s': LeaseState)
    requires Affords(s, 1) && s'.sentRecords == s.sentRecords && s'.sentPlaintext == s.sentPlaintext
    ensures Affords(s', 1)
  {
  }

  lemma FourSteps(w: World, a1: Act, a2: Act, a3: Act, a4: Act)
    requires Enabled(w, a1) && Enabled(Next(w, a1), a2) && Enabled(Next(Next(w, a1), a2), a3)
    requires Enabled(Next(Next(Next(w, a1), a2), a3), a4)
    ensures Reaches(w, [a1, a2, a3, a4], Next(Next(Next(Next(w, a1), a2), a3), a4))
  {
    hide Next, Enabled;
    var end := Next(Next(Next(Next(w, a1), a2), a3), a4);
    assert [a1, a2, a3, a4][1..] == [a2, a3, a4] && [a2, a3, a4][1..] == [a3, a4] && [a3, a4][1..] == [a4];
    assert [a4][1..] == [];
    assert Reaches(end, [], end);
    assert Reaches(Next(Next(Next(w, a1), a2), a3), [a4], end);
    assert Reaches(Next(Next(w, a1), a2), [a3, a4], end);
    assert Reaches(Next(w, a1), [a2, a3, a4], end);
  }

  lemma {:induction false} ReachesOn(w: World, first: seq<Act>, mid: World, more: seq<Act>, end: World)
    requires Reaches(w, first, mid) && Reaches(mid, more, end)
    ensures Reaches(w, first + more, end)
    decreases |first|
  {
    hide Next, Enabled;
    if first == [] {
      assert first + more == more;
    } else {
      assert (first + more)[1..] == first[1..] + more;
      ReachesOn(Next(w, first[0]), first[1..], mid, more, end);
    }
  }

  /** Each counter is above the one before it. */
  predicate Rising(last: u64, counters: seq<u64>)
    decreases |counters|
  {
    counters == [] || (counters[0] > last && Rising(counters[0], counters[1..]))
  }

  lemma LastIsAsked(w: World, counter: u64)
    requires Idle(w) && w.asked != [] && w.asked[|w.asked| - 1] == counter
    ensures w.broker.last == counter
  {
    hide Inv;
    IdleFacts(w);
  }

  lemma AffordsNext(s: LeaseState, s': LeaseState, n: nat)
    requires n > 0 && Affords(s, n) && BeatSent(s, s')
    ensures Affords(s, 1) && Affords(s', n - 1)
  {
    assert n * BEAT_MOST == (n - 1) * BEAT_MOST + BEAT_MOST;
  }

  lemma {:induction false} BeatsPass(w: World, counters: seq<u64>) returns (acts: seq<Act>, v: World)
    requires Idle(w) && Rising(w.broker.last, counters)
    requires Affords(w.broker, |counters|) && Affords(w.target, |counters|)
    ensures Reaches(w, acts, v) && Idle(v) && v.asked == w.asked + counters
    decreases |counters|
  {
    hide Idle, BeatSent, Reaches, Affords, Rising;
    if counters == [] {
      acts, v := [], w;
      NoSteps(w);
      assert w.asked + counters == w.asked;
    } else {
      AffordsOne(w.broker, |counters|);
      AffordsOne(w.target, |counters|);
      RisingFirst(w.broker.last, counters);
      var first, mid := BeatPasses(w, counters[0]);
      LastIsAsked(mid, counters[0]);
      AffordsNext(w.broker, mid.broker, |counters|);
      AffordsNext(w.target, mid.target, |counters|);
      var more;
      more, v := BeatsPass(mid, counters[1..]);
      acts := first + more;
      ReachesOn(w, first, mid, more, v);
      Assoc(w.asked, [counters[0]], counters[1..]);
      assert counters == [counters[0]] + counters[1..];
    }
  }

  lemma NoSteps(w: World)
    ensures Reaches(w, [], w)
  {
  }

  lemma RisingFirst(last: u64, counters: seq<u64>)
    requires counters != [] && Rising(last, counters)
    ensures counters[0] > last && Rising(counters[0], counters[1..])
  {
  }

  lemma AffordsOne(s: LeaseState, n: nat)
    requires n > 0 && Affords(s, n)
    ensures Affords(s, 1)
  {
    assert n * BEAT_MOST >= BEAT_MOST;
  }

  /** From the acknowledgement on: any rising counters within the quotas are asked,
      taken, answered and returned in some run, and both ends stay open. */
  lemma AnyHeartbeatsComeThrough(key: Bytes32, ack: BootstrapAck, counters: seq<u64>)
    returns (acts: seq<Act>, v: World)
    requires Rising(0, counters)
    requires |counters| + 2 < RECORD_LIMIT && (|counters| + 2) * BEAT_MOST + CLOSE_RECORD_LEN < BYTE_LIMIT
    ensures Reaches(StartWorld(key, ack), acts, v)
    ensures v.asked == v.taken == v.replied == v.returned == counters
    ensures Alive(v.target) && Alive(v.broker)
  {
    hide Reaches, Rising;
    StartIsIdle(key, ack, |counters|);
    acts, v := BeatsPass(StartWorld(key, ack), counters);
    assert [] + counters == counters;
  }

  lemma StartIsIdle(key: Bytes32, ack: BootstrapAck, beats: nat)
    requires beats + 2 < RECORD_LIMIT && (beats + 2) * BEAT_MOST + CLOSE_RECORD_LEN < BYTE_LIMIT
    ensures var w := StartWorld(key, ack);
            && Idle(w) && w.broker.last == 0 && w.asked == [] && Affords(w.broker, beats) && Affords(w.target, beats)
  {
    hide Inv, Plain;
    StartInv(key, ack);
    PlainFacts(AckRecord(ack));
  }

  // ---- A Close ---------------------------------------------------------

  /** Behind every heartbeat there is at most the Close that was written. */
  lemma ReadersReport(l: Lane)
    requires Carrying(l) && Kept(l.r) && l.queue != [] && |l.got| == |l.sent|
    ensures l.close.Some?
    ensures var read := ReadHeartbeat(l.r, l.queue[0], l.role);
            read.result == Err(Failure(PeerClosed, l.close, None))
    ensures LeaseReadClose(l.r, l.queue[0]).result == Ok(l.close.value)
  {
    hide OpenRecord, Plain, SessionRuns.CloseIn, CloseRecord, ParseClose;
    FrontOpens(l);
    assert Flying(l) == [CloseRecord(l.close.value)];
    CloseParses(l.close.value);
  }

  /** In every reachable world: what comes to an open end after the heartbeats it
      is owed is the Close the other end wrote, and it reports exactly that. */
  lemma CloseIsReported(key: Bytes32, ack: BootstrapAck, acts: seq<Act>, w: World)
    requires Reaches(StartWorld(key, ack), acts, w)
    ensures Alive(w.target) && w.toTarget != [] && |w.taken| == |w.asked| ==>
              && w.brokerClose.Some?
              && LeaseReadClose(w.target, w.toTarget[0]).result == Ok(w.brokerClose.value)
              && (w.target.pending.None? ==>
                    LeaseDo(w.target, TakeRequest(w.toTarget[0])).failure
                    == Some(Failure(PeerClosed, w.brokerClose, None)))
    ensures Alive(w.broker) && w.toBroker != [] && |w.returned| == |w.replied| ==>
              && w.targetClose.Some?
              && LeaseReadClose(w.broker, w.toBroker[0]).result == Ok(w.targetClose.value)
              && LeaseDo(w.broker, TakeReply(w.toBroker[0])).failure
                 == Some(Failure(PeerClosed, w.targetClose, None))
  {
    hide Reaches, Carrying, Kept, Steps, ReadHeartbeat, LeaseReadClose;
    StartInv(key, ack);
    ReachableInv(StartWorld(key, ack), acts, w);
    if Alive(w.target) && w.toTarget != [] && |w.taken| == |w.asked| {
      ReadersReport(Requests(w));
    }
    if Alive(w.broker) && w.toBroker != [] && |w.returned| == |w.replied| {
      ReadersReport(Responses(w));
    }
  }
}
