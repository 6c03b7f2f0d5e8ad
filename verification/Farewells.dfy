/** How a session ends for the side that is told: the Close the other side wrote is
    the one it reports. */
module Farewells {
  import opened Common
  import opened Terms
  import opened Payloads
  import opened Records
  import opened Noise
  import opened Session
  import opened SessionRuns
  import opened Lanes
  import opened Calls
  import opened TwoParty
  import opened Conversations

  /** A Close in front comes last: no Finished and no message before it. */
  lemma CloseInFront(l: Lane)
    requires Carrying(l) && l.r.gotFinished && l.queue != [] && CloseIn(l.queue[0]).Some?
    ensures !Flowing(l) && l.close.Some?
    ensures Flying(l) == [CloseRecord(l.close.value)]
    ensures ReadRecord(l.r, l.queue[0]) == Out(Took(l.r, CloseRecord(l.close.value)), Ok(CloseRecord(l.close.value)))
  {
    hide FragmentAt, FragmentsFrom, Frames, Weight, CloseRecord;
    FrontReads(l);
    FrontKind(l.r, l.queue[0]);
    if Flowing(l) {
      FrontFragment(l);
      FragmentIsApplication(l.sent[|l.got|], Offset(l));
    }
  }

  lemma FragmentIsApplication(payload: seq<byte>, offset: nat)
    requires Sendable(payload) && offset < |payload|
    ensures FragmentAt(Application, payload, offset).kind.Application?
  {
  }

  lemma FrontKind(c: Core, frame: Frame)
    requires ReadRecord(c, frame).result.Ok? && CloseIn(frame).Some?
    ensures ReadRecord(c, frame).result.value.kind.Close?
  {
    hide AtLimit, DecodeRecord;
  }

  lemma ReadersReport(l: Lane)
    requires Carrying(l) && Talks(l.r) && l.queue != [] && CloseIn(l.queue[0]).Some?
    ensures l.close.Some?
    ensures var e := Do(Reader(l), l.r, Recv(l.queue[0]));
            && e.failure == Some(Failure(PeerClosed, l.close, None))
            && e.frames == [] && e.delivered.None? && e.core.closed
    ensures var read := RoleReadClose(l.r, l.queue[0]);
            read.result == Ok(l.close.value) && read.core.closed
  {
    hide Carrying, Flying, ReadRecord, CloseRecord, ParseClose;
    CloseInFront(l);
    CloseParses(l.close.value);
  }

  /** In every reachable world: a side that has exchanged both Finished and reads a
      Close, awaiting an application or a Close, reports exactly the one the other
      side wrote, and after a delivery that one does not deny the hand-off. */
  lemma CloseIsReported(w: World, role: Role)
    requires Reachable(w) && Talks(CoreOf(w, role)) && Incoming(w, role) != []
    requires CloseIn(Incoming(w, role)[0]).Some?
    ensures var written := if role.Target? then w.brokerClose else w.targetClose;
            && written.Some?
            && (var e := Do(role, CoreOf(w, role), Recv(Incoming(w, role)[0]));
                e.failure == Some(Failure(PeerClosed, written, None)) && e.frames == [] && e.core.closed)
            && (var read := RoleReadClose(CoreOf(w, role), Incoming(w, role)[0]);
                read.result == Ok(written.value) && read.core.closed)
            && (w.heard != [] ==> written.value.handoff.HandoffPossibleOrConfirmed?)
  {
    hide Do, RoleReadClose, Inv, Carrying, Reachable;
    ReachableIsInv(w);
    LaneCarries(w, role);
    ReadersReport(Into(w, role));
    CloseTellsHandoff(w);
  }

  /** With everything delivered, a Close that was written is all there is. */
  lemma OnlyCloseIsLeft(l: Lane)
    requires Carrying(l) && l.r.gotFinished && !Flowing(l) && l.close.Some?
    ensures |l.queue| == 1 && CloseIn(l.queue[0]) == l.close
  {
    hide CloseIn, CloseRecord, Plain;
    var r := CloseRecord(l.close.value);
    assert Flying(l) == [r];
    FramesHead(Sender(l), r, []);
    FramesNone(Later(Sender(l), 1));
    assert [r] + [] == [r];
    CloseFrameReads(Sender(l), l.close.value);
  }

  /** In every reachable world: a Close that was written comes through behind
      everything that was sent before it. */
  lemma CloseComesThrough(w: World, role: Role) returns (acts: seq<Act>, v: World)
    requires Reachable(w) && Talks(CoreOf(w, role))
    requires (if role.Target? then w.brokerClose else w.targetClose).Some?
    ensures Reaches(w, acts, v) && Reachable(v) && ReadsOn(w, role, acts)
    ensures TakenBy(v, role) == SentTo(v, role) == SentTo(w, role) && Talks(CoreOf(v, role))
    ensures |Incoming(v, role)| == 1
    ensures CloseIn(Incoming(v, role)[0]) == if role.Target? then w.brokerClose else w.targetClose
  {
    hide Inv, Carrying, Reachable, Next, Accepted, CloseIn;
    ReachableIsInv(w);
    TakenIsPrefix(w, role);
    acts, v := ReadsAll(w, role);
    StaysReachable(w, acts, v);
    LaneCarries(v, role);
    OnlyCloseIsLeft(Into(v, role));
  }

  // ---- An end without a Close ------------------------------------------

  /** The first bytes of a message are in, the rest is not. */
  predicate Begun(c: Core) {
    Pending(c.reassembly) != []
  }

  lemma EofSays(l: Lane)
    requires Carrying(l)
    ensures var out := Session.Eof(l.r);
            out.result == Err(Plainly(if Begun(l.r) then Malformed else PeerClosed)) && out.core.closed
    ensures Begun(l.r) ==>
              && Flowing(l) && Pending(l.r.reassembly) <= l.sent[|l.got|]
              && |Pending(l.r.reassembly)| < |l.sent[|l.got|]|
  {
    hide Frames, Weight, FragmentsFrom;
  }

  /** In every reachable world: when the stream of an open side ends, that is an
      error exactly if part of a message is in, and that part is a proper beginning
      of the next message the other side sent. */
  lemma EndIsReported(w: World, role: Role)
    requires Reachable(w) && Usable(CoreOf(w, role))
    ensures var c := CoreOf(w, role);
            var e := Do(role, c, EndOfStream);
            && e.failure == Some(Plainly(if Begun(c) then Malformed else PeerClosed))
            && e.frames == [] && e.delivered.None? && e.core.closed
            && (Begun(c) ==>
                  && |TakenBy(w, role)| < |SentTo(w, role)|
                  && Pending(c.reassembly) <= SentTo(w, role)[|TakenBy(w, role)|]
                  && |Pending(c.reassembly)| < |SentTo(w, role)[|TakenBy(w, role)|]|)
  {
    hide Inv, Carrying, Reachable, Session.Eof, Begun;
    ReachableIsInv(w);
    LaneCarries(w, role);
    EofSays(Into(w, role));
  }
}
