/** The two honest sides again, now over byte streams: frames are sealed into
    outer envelopes, cut anywhere on their way, and put together by the receiver's
    decoder.  Every such run is a run of the frame-level system. */
module BytePair {
  import opened Common
  import opened Terms
  import opened Framing
  import opened Noise
  import opened Session
  import opened Lanes
  import opened Calls
  import opened TwoParty
  import opened Conversations
  import Payloads

  /** Any way to seal frames into envelopes and to open them. */
  datatype Wire = Wire(open: seq<byte> -> Frame, seal: Frame -> seq<byte>)

  /** The wire can carry this frame: one envelope, which opens to it. */
  predicate Carries(wire: Wire, f: Frame) {
    IsEnvelope(wire.seal(f)) && wire.open(wire.seal(f)) == f
  }

  /** Bytes on their way, the receiver's decoder, and frames it has completed. */
  datatype Link = Link(flight: seq<byte>, decoder: DecoderState, inbox: seq<seq<byte>>)

  /** The cores and logs, without frame queues, and one link each way. */
  datatype ByteWorld = ByteWorld(sides: World, toTarget: Link, toBroker: Link)

  datatype ByteAct = Invoke(role: Role, call: Call) | Arrive(role: Role, n: nat)

  function Bare(w: World): World {
    w.(toTarget := [], toBroker := [])
  }

  function LinkTo(b: ByteWorld, role: Role): Link {
    if role.Target? then b.toTarget else b.toBroker
  }

  function WithLink(b: ByteWorld, role: Role, link: Link): ByteWorld {
    if role.Target? then b.(toTarget := link) else b.(toBroker := link)
  }

  function Wired(wire: Wire, frames: seq<Frame>): seq<seq<byte>> {
    seq(|frames|, i requires 0 <= i < |frames| => wire.seal(frames[i]))
  }

  function EffectOf(b: ByteWorld, act: ByteAct): Effect
    requires act.Invoke?
  {
    Do(act.role, CoreOf(b.sides, act.role), act.call)
  }

  /** A side reads what its decoder completed first; bytes arrive in any amounts. */
  predicate Possible(wire: Wire, b: ByteWorld, act: ByteAct) {
    match act
    case Invoke(role, call) =>
      && (Receives(call) ==> LinkTo(b, role).inbox != [] && call.frame == wire.open(LinkTo(b, role).inbox[0]))
      && (forall f :: f in EffectOf(b, act).frames ==> Carries(wire, f))
    case Arrive(role, n) => n <= |LinkTo(b, role).flight| && LinkTo(b, role).decoder.Live?
  }

  /** What the call does to the cores and logs, whatever the queues. */
  function Acted(w: World, role: Role, call: Call): World {
    var e := Do(role, CoreOf(w, role), call);
    var queue := if Receives(call) then [call.frame] else [];
    Bare(if role.Target? then TargetActs(w.(toTarget := queue), call, e)
         else BrokerActs(w.(toBroker := queue), call, e))
  }

  function Move(wire: Wire, b: ByteWorld, act: ByteAct): ByteWorld
    requires Possible(wire, b, act)
  {
    match act
    case Invoke(role, call) =>
      var own, far := LinkTo(b, role), LinkTo(b, Peer(role));
      var read := if Receives(call) then own.(inbox := own.inbox[1..]) else own;
      var sent := far.(flight := far.flight + Concat(Wired(wire, EffectOf(b, act).frames)));
      WithLink(WithLink(b.(sides := Acted(b.sides, role, call)), role, read), Peer(role), sent)
    case Arrive(role, n) =>
      var link := LinkTo(b, role);
      var (decoder, pushed) := PushSpec(link.decoder, link.flight[..n]);
      WithLink(b, role, Link(link.flight[n..], decoder, if pushed.Ok? then link.inbox + pushed.value else link.inbox))
  }

  ghost predicate Runs(wire: Wire, b: ByteWorld, acts: seq<ByteAct>, end: ByteWorld)
    decreases |acts|
  {
    if acts == [] then end == b
    else Possible(wire, b, acts[0]) && Runs(wire, Move(wire, b, acts[0]), acts[1..], end)
  }

  function StartBytes(target: Core, broker: Core): ByteWorld {
    ByteWorld(StartWorld(target, broker), Link([], Live([]), []), Link([], Live([]), []))
  }

  // ---- The links hold the queues ---------------------------------------

  /** The completed frames, the decoder's bytes and the bytes in flight are, one
      after the other, the envelopes of the queue. */
  predicate Holds(wire: Wire, link: Link, queue: seq<Frame>) {
    && link.decoder.Live? && Scan(link.decoder.tail) == Scanned([], link.decoder.tail)
    && (forall f :: f in queue ==> Carries(wire, f))
    && |link.inbox| <= |queue| && link.inbox == Wired(wire, queue[..|link.inbox|])
    && link.decoder.tail + link.flight == Concat(Wired(wire, queue[|link.inbox|..]))
  }

  lemma WiredAppend(wire: Wire, a: seq<Frame>, b: seq<Frame>)
    ensures Wired(wire, a + b) == Wired(wire, a) + Wired(wire, b)
  {
  }

  lemma {:induction false} ConcatBoth(a: seq<seq<byte>>, b: seq<seq<byte>>)
    ensures Concat(a + b) == Concat(a) + Concat(b)
    decreases |a|
  {
    if a == [] {
      assert a + b == b;
    } else {
      assert (a + b)[1..] == a[1..] + b;
      ConcatBoth(a[1..], b);
    }
  }

  lemma SendingHolds(wire: Wire, link: Link, queue: seq<Frame>, frames: seq<Frame>)
    requires Holds(wire, link, queue) && forall f :: f in frames ==> Carries(wire, f)
    ensures Holds(wire, link.(flight := link.flight + Concat(Wired(wire, frames))), queue + frames)
  {
    hide Carries, Scan;
    var k := |link.inbox|;
    assert (queue + frames)[..k] == queue[..k] && (queue + frames)[k..] == queue[k..] + frames;
    WiredAppend(wire, queue[k..], frames);
    ConcatBoth(Wired(wire, queue[k..]), Wired(wire, frames));
    Assoc(link.decoder.tail, link.flight, Concat(Wired(wire, frames)));
  }

  lemma ReadingHolds(wire: Wire, link: Link, queue: seq<Frame>)
    requires Holds(wire, link, queue) && link.inbox != []
    ensures queue != [] && wire.open(link.inbox[0]) == queue[0]
    ensures Holds(wire, link.(inbox := link.inbox[1..]), queue[1..])
  {
    hide Scan;
    var k := |link.inbox|;
    assert link.inbox[0] == wire.seal(queue[0]) && Carries(wire, queue[0]);
    assert queue[1..][..k - 1] == queue[..k][1..] && queue[1..][k - 1..] == queue[k..];
    assert Wired(wire, queue[..k])[1..] == Wired(wire, queue[..k][1..]);
  }

  /** Whatever number of bytes arrives, the decoder completes the next envelopes. */
  lemma ArrivalHolds(wire: Wire, link: Link, queue: seq<Frame>, n: nat)
    requires Holds(wire, link, queue) && n <= |link.flight|
    ensures var (decoder, pushed) := PushSpec(link.decoder, link.flight[..n]);
            && pushed.Ok?
            && Holds(wire, Link(link.flight[n..], decoder, link.inbox + pushed.value), queue)
  {
    hide Scan;
    var k := |link.inbox|;
    var a, b := link.decoder.tail + link.flight[..n], link.flight[n..];
    var rest := Wired(wire, queue[k..]);
    assert link.flight == link.flight[..n] + b;
    Assoc(link.decoder.tail, link.flight[..n], b);
    forall f | f in rest ensures IsEnvelope(f) {
      var i :| 0 <= i < |rest| && rest[i] == f;
      assert queue[k + i] in queue && Carries(wire, queue[k + i]);
    }
    ScanOfEnvelopes(rest);
    ScanAppend(a, b);
    ScanIsMaximal(a);
    var done, tail := Scan(a).frames, Scan(a).tail;
    var later := Scan(tail + b);
    assert rest == done + later.frames && later.tail == [];
    ScanConserves(tail + b);
    assert Concat(later.frames) + [] == Concat(later.frames);
    var m := k + |done|;
    assert queue[k..] == queue[k..m] + queue[m..] && queue[..m] == queue[..k] + queue[k..m];
    WiredAppend(wire, queue[k..m], queue[m..]);
    WiredAppend(wire, queue[..k], queue[k..m]);
    assert done == rest[..|done|] == Wired(wire, queue[k..m]);
    assert later.frames == rest[|done|..] == Wired(wire, queue[m..]);
  }

  // ---- Every byte-level run is a frame-level run -----------------------

  /** The frame-level world a byte-level one stands for. */
  predicate StandsFor(wire: Wire, b: ByteWorld, w: World) {
    && b.sides == Bare(w)
    && Holds(wire, b.toTarget, w.toTarget) && Holds(wire, b.toBroker, w.toBroker)
  }

  lemma ArriveStandsFor(wire: Wire, b: ByteWorld, w: World, role: Role, n: nat)
    requires StandsFor(wire, b, w) && Possible(wire, b, Arrive(role, n))
    ensures StandsFor(wire, Move(wire, b, Arrive(role, n)), w)
  {
    hide Holds, Scan, PushSpec;
    ArrivalHolds(wire, LinkTo(b, role), Incoming(w, role), n);
  }

  lemma ActStandsFor(wire: Wire, b: ByteWorld, w: World, role: Role, call: Call)
    requires StandsFor(wire, b, w) && Possible(wire, b, Invoke(role, call))
    ensures Enabled(w, TwoParty.Act(role, call))
    ensures StandsFor(wire, Move(wire, b, Invoke(role, call)), Next(w, TwoParty.Act(role, call)))
  {
    hide Holds, Do, Carries, Grown, SentBy, Noted;
    var e := Do(role, CoreOf(w, role), call);
    if Receives(call) {
      ReadingHolds(wire, LinkTo(b, role), Incoming(w, role));
    } else {
      assert Incoming(w, role)[0..] == Incoming(w, role);
    }
    SendingHolds(wire, LinkTo(b, Peer(role)), Incoming(w, Peer(role)), e.frames);
  }

  lemma {:induction false} BytesAreFrames(wire: Wire, b: ByteWorld, w: World, acts: seq<ByteAct>, end: ByteWorld)
    returns (abstracted: seq<TwoParty.Act>, v: World)
    requires StandsFor(wire, b, w) && Runs(wire, b, acts, end)
    ensures Reaches(w, abstracted, v) && StandsFor(wire, end, v)
    decreases |acts|
  {
    hide StandsFor, Possible, Move, Next, Enabled;
    if acts == [] {
      abstracted, v := [], w;
    } else {
      match acts[0] {
        case Arrive(role, n) =>
          ArriveStandsFor(wire, b, w, role, n);
          abstracted, v := BytesAreFrames(wire, Move(wire, b, acts[0]), w, acts[1..], end);
        case Invoke(role, call) =>
          ActStandsFor(wire, b, w, role, call);
          var more;
          more, v := BytesAreFrames(wire, Move(wire, b, acts[0]), Next(w, TwoParty.Act(role, call)), acts[1..], end);
          abstracted := [TwoParty.Act(role, call)] + more;
          assert abstracted[1..] == more;
      }
    }
  }

  lemma Simulated(wire: Wire, bindingT: Payloads.SessionBinding, pskT: Payloads.Bytes32,
                  bindingB: Payloads.SessionBinding, pskB: Payloads.Bytes32,
                  target: Core, broker: Core, acts: seq<ByteAct>, end: ByteWorld) returns (w: World)
    requires NewTarget(bindingT, pskT) == Ok(target) && NewBroker(bindingB, pskB) == Ok(broker)
    requires Runs(wire, StartBytes(target, broker), acts, end)
    ensures Reachable(w) && StandsFor(wire, end, w)
  {
    hide Runs, Reaches, NewTarget, NewBroker;
    StartHolds(wire, target, broker);
    var abstracted;
    abstracted, w := BytesAreFrames(wire, StartBytes(target, broker), StartWorld(target, broker), acts, end);
    assert Starting(bindingT, pskT, bindingB, pskB, abstracted, w);
  }

  lemma StartHolds(wire: Wire, target: Core, broker: Core)
    ensures StandsFor(wire, StartBytes(target, broker), StartWorld(target, broker))
  {
    assert Scan([]) == Scanned([], []);
  }

  /** However the bytes are cut and whoever moves: no decoder ever fails, what each
      side delivers is a prefix of what the other sent, requests and responses
      alternate, and no Close denies a delivery. */
  lemma BytesKeepTheSession(wire: Wire, bindingT: Payloads.SessionBinding, pskT: Payloads.Bytes32,
                            bindingB: Payloads.SessionBinding, pskB: Payloads.Bytes32,
                            target: Core, broker: Core, acts: seq<ByteAct>, end: ByteWorld)
    requires NewTarget(bindingT, pskT) == Ok(target) && NewBroker(bindingB, pskB) == Ok(broker)
    requires Runs(wire, StartBytes(target, broker), acts, end)
    ensures end.toTarget.decoder.Live? && end.toBroker.decoder.Live?
    ensures var w := end.sides;
            && w.heard <= w.asked && w.received <= w.answered
            && |w.received| <= |w.answered| <= |w.heard| <= |w.asked| <= |w.received| + 1
            && (!w.target.closed && !w.broker.closed ==> w.target.peerTurn || w.broker.peerTurn)
            && (w.heard != [] && w.targetClose.Some? ==> w.targetClose.value.handoff.HandoffPossibleOrConfirmed?)
            && (w.heard != [] && w.brokerClose.Some? ==> w.brokerClose.value.handoff.HandoffPossibleOrConfirmed?)
  {
    hide Runs, Reachable, NewTarget, NewBroker;
    var w := Simulated(wire, bindingT, pskT, bindingB, pskB, target, broker, acts, end);
    PrefixAndAlternation(w);
    CloseTellsHandoff(w);
  }

  /** And an open side accepts the application frame its decoder completed first. */
  lemma BytesAreAccepted(wire: Wire, bindingT: Payloads.SessionBinding, pskT: Payloads.Bytes32,
                         bindingB: Payloads.SessionBinding, pskB: Payloads.Bytes32,
                         target: Core, broker: Core, acts: seq<ByteAct>, end: ByteWorld, role: Role)
    requires NewTarget(bindingT, pskT) == Ok(target) && NewBroker(bindingB, pskB) == Ok(broker)
    requires Runs(wire, StartBytes(target, broker), acts, end)
    requires Usable(CoreOf(end.sides, role)) && LinkTo(end, role).inbox != []
    requires CarriesApplication(wire.open(LinkTo(end, role).inbox[0]))
    ensures var e := Do(role, CoreOf(end.sides, role), Recv(wire.open(LinkTo(end, role).inbox[0])));
            && e.failure.None? && !e.core.closed
            && |TakenBy(end.sides, role)| < |SentTo(end.sides, role)|
            && (e.delivered.Some? ==> e.delivered.value == SentTo(end.sides, role)[|TakenBy(end.sides, role)|])
  {
    hide Runs, Reachable, NewTarget, NewBroker, Holds, Do, CarriesApplication;
    var w := Simulated(wire, bindingT, pskT, bindingB, pskB, target, broker, acts, end);
    ReadingHolds(wire, LinkTo(end, role), Incoming(w, role));
    HonestApplicationAccepted(w, role);
  }

  // ---- And every frame-level run is a byte-level one --------------------

  /** The wire carries whatever is sent in this run. */
  predicate CarriesRun(wire: Wire, w: World, acts: seq<TwoParty.Act>)
    decreases |acts|
  {
    acts == []
    || (&& Enabled(w, acts[0])
        && (forall f :: f in Do(acts[0].role, CoreOf(w, acts[0].role), acts[0].call).frames ==> Carries(wire, f))
        && CarriesRun(wire, Next(w, acts[0]), acts[1..]))
  }

  /** Once all bytes have arrived, all frames are complete. */
  lemma AllArrives(wire: Wire, link: Link, queue: seq<Frame>)
    requires Holds(wire, link, queue)
    ensures var (decoder, pushed) := PushSpec(link.decoder, link.flight);
            pushed.Ok? && Holds(wire, Link([], decoder, link.inbox + pushed.value), queue)
            && |link.inbox + pushed.value| == |queue|
  {
    hide Scan, PushSpec;
    ArrivalHolds(wire, link, queue, |link.flight|);
    assert link.flight[..|link.flight|] == link.flight && link.flight[|link.flight|..] == [];
    var (decoder, pushed) := PushSpec(link.decoder, link.flight);
    NothingLeft(wire, Link([], decoder, link.inbox + pushed.value), queue);
  }

  lemma NothingLeft(wire: Wire, link: Link, queue: seq<Frame>)
    requires Holds(wire, link, queue) && link.flight == []
    ensures |link.inbox| == |queue|
  {
    hide Scan;
    var rest := Wired(wire, queue[|link.inbox|..]);
    forall f | f in rest ensures IsEnvelope(f) {
      var i :| 0 <= i < |rest| && rest[i] == f;
      assert queue[|link.inbox| + i] in queue && Carries(wire, queue[|link.inbox| + i]);
    }
    assert link.decoder.tail + [] == link.decoder.tail;
    ScanOfEnvelopes(rest);
  }

  lemma ArrivesFirst(wire: Wire, b: ByteWorld, w: World, role: Role)
    requires StandsFor(wire, b, w)
    ensures var all := Arrive(role, |LinkTo(b, role).flight|);
            && Possible(wire, b, all) && StandsFor(wire, Move(wire, b, all), w)
            && |LinkTo(Move(wire, b, all), role).inbox| == |Incoming(w, role)|
  {
    hide Scan, PushSpec;
    var link := LinkTo(b, role);
    AllArrives(wire, link, Incoming(w, role));
    assert link.flight[..|link.flight|] == link.flight && link.flight[|link.flight|..] == [];
    ArriveStandsFor(wire, b, w, role, |link.flight|);
  }

  /** A byte-level world in which everything has arrived can do what the other does. */
  lemma CanInvoke(wire: Wire, b: ByteWorld, w: World, role: Role, call: Call)
    requires StandsFor(wire, b, w) && Enabled(w, TwoParty.Act(role, call))
    requires forall f :: f in Do(role, CoreOf(w, role), call).frames ==> Carries(wire, f)
    requires Receives(call) ==> |LinkTo(b, role).inbox| == |Incoming(w, role)|
    ensures Possible(wire, b, Invoke(role, call))
  {
    hide Holds, Do, Carries;
    if Receives(call) {
      ReadingHolds(wire, LinkTo(b, role), Incoming(w, role));
    }
  }

  lemma {:induction false} FramesAreBytes(wire: Wire, b: ByteWorld, w: World, acts: seq<TwoParty.Act>, v: World)
    returns (moves: seq<ByteAct>, end: ByteWorld)
    requires StandsFor(wire, b, w) && Reaches(w, acts, v) && CarriesRun(wire, w, acts)
    ensures Runs(wire, b, moves, end) && StandsFor(wire, end, v)
    decreases |acts|
  {
    hide StandsFor, Possible, Move, Next, Enabled, Carries;
    if acts == [] {
      moves, end := [], b;
    } else {
      var role, call := acts[0].role, acts[0].call;
      var all, invoke := Arrive(role, |LinkTo(b, role).flight|), Invoke(role, call);
      ArrivesFirst(wire, b, w, role);
      var b1 := Move(wire, b, all);
      CanInvoke(wire, b1, w, role, call);
      ActStandsFor(wire, b1, w, role, call);
      var more;
      more, end := FramesAreBytes(wire, Move(wire, b1, invoke), Next(w, acts[0]), acts[1..], v);
      moves := [all, invoke] + more;
      assert moves[1..] == [invoke] + more && ([invoke] + more)[1..] == more;
      assert Runs(wire, b1, [invoke] + more, end);
    }
  }

  lemma {:induction false} ReadsAreCarried(wire: Wire, w: World, role: Role, acts: seq<TwoParty.Act>)
    requires ReadsOn(w, role, acts)
    ensures CarriesRun(wire, w, acts)
    decreases |acts|
  {
    hide Next, Enabled, Do, Carries;
    if acts != [] {
      ReadsAreCarried(wire, Next(w, acts[0]), role, acts[1..]);
    }
  }

  /** After any run of bytes, a side that has sent its Finished and is open gets,
      from what is still on its way, everything the other side has sent. */
  lemma BytesDeliverAll(wire: Wire, bindingT: Payloads.SessionBinding, pskT: Payloads.Bytes32,
                        bindingB: Payloads.SessionBinding, pskB: Payloads.Bytes32,
                        target: Core, broker: Core, acts: seq<ByteAct>, end: ByteWorld, role: Role)
    returns (more: seq<ByteAct>, last: ByteWorld)
    requires NewTarget(bindingT, pskT) == Ok(target) && NewBroker(bindingB, pskB) == Ok(broker)
    requires Runs(wire, StartBytes(target, broker), acts, end)
    requires Usable(CoreOf(end.sides, role)) && CoreOf(end.sides, role).sentFinished
    ensures Runs(wire, end, more, last)
    ensures TakenBy(last.sides, role) == SentTo(last.sides, role) == SentTo(end.sides, role)
    ensures Usable(CoreOf(last.sides, role))
  {
    hide Runs, Reachable, NewTarget, NewBroker, Holds, Reaches, CarriesRun, ReadsOn;
    var w := Simulated(wire, bindingT, pskT, bindingB, pskB, target, broker, acts, end);
    var reading, v := ReadingDeliversAll(w, role);
    ReadsAreCarried(wire, w, role, reading);
    more, last := FramesAreBytes(wire, end, w, reading, v);
  }

  /** And where the wire carries it, any conversation comes about over bytes. */
  lemma AnyConversationOverBytes(wire: Wire, binding: Payloads.SessionBinding, psk: Payloads.Bytes32,
                                 hash: Payloads.Bytes32, requests: seq<seq<byte>>, replies: seq<seq<byte>>)
    returns (acts: seq<TwoParty.Act>, moves: seq<ByteAct>, end: ByteWorld)
    requires Payloads.ValidGeneration(binding.generation) && Payloads.ValidGeneration(binding.epoch)
    requires Sayable(requests, replies, false)
    requires Affords(1, FINISHED_MOST, requests) && Affords(1, FINISHED_MOST, replies)
    ensures NewTarget(binding, psk).Ok? && NewBroker(binding, psk).Ok?
    ensures var target, broker := NewTarget(binding, psk).value, NewBroker(binding, psk).value;
            CarriesRun(wire, StartWorld(target, broker), acts) ==>
              && Runs(wire, StartBytes(target, broker), moves, end)
              && end.sides.heard == requests && end.sides.received == replies
  {
    hide Runs, NewTarget, NewBroker, Holds, Reaches, CarriesRun, Affords, Sayable;
    var v;
    acts, v := AnyConversationComesAbout(binding, psk, hash, requests, replies);
    var target, broker := NewTarget(binding, psk).value, NewBroker(binding, psk).value;
    StartHolds(wire, target, broker);
    moves, end := [], StartBytes(target, broker);
    if CarriesRun(wire, StartWorld(target, broker), acts) {
      moves, end := FramesAreBytes(wire, StartBytes(target, broker), StartWorld(target, broker), acts, v);
    }
  }
}
