/** What the calls on an owned operation come back with. */
module OwnedOutcomes {
  import opened Common
  import opened OwnedOp

  // ---- How a thread comes back -----------------------------------------

  /** What a thread comes back from a call with: the resource, having given the
      operation up, or nothing, the shared state being as it found it. */
  lemma ComesBackWith(value: Resource, consumers: nat, moves: seq<Move>, w: World, id: nat, late: bool)
    requires Reaches(NewWorld(value, consumers), moves, w) && Enabled(w, Go(id, late))
    requires Step(w, Go(id, late)).consumers[id].Idle?
    ensures var c, v := w.consumers[id], Step(w, Go(id, late));
            match c
            case TakeLocked => w.delivered == [] && v.delivered == [value]
            case WaitWon => w.delivered == [] && v.delivered == [value]
            case AbandonWon => v.cancelled && v.abandons == 1 && v.delivered == []
            case WaitCancel => v.cancelled && v.abandons == 1 && v.delivered == []
            case Taking => !w.stage.Ready? && v == w.(consumers := w.consumers[id := Idle])
            case Abandoning => !w.stage.Producing? && v == w.(consumers := w.consumers[id := Idle])
            case _ => false
  {
    NewInv(value, consumers);
    RunKeeps(NewWorld(value, consumers), value, moves, w);
  }

  /** A take wins exactly on a ready stage, an abandon exactly on a producing one;
      a wait wins as soon as it looks at a ready stage, and gives up exactly when
      it looks at a producing one past its deadline. */
  lemma CallsDecide(w: World, id: nat, late: bool)
    requires Enabled(w, Go(id, late))
    ensures var c, c', v := w.consumers[id], Step(w, Go(id, late)).consumers[id], Step(w, Go(id, late));
            && (c.Taking? || c.WaitLoop? ==>
                (Won(c') <==> w.stage.Ready?) && (v.stage.Taken? <==> Won(c') || w.stage.Taken?))
            && (c.Abandoning? || c.WaitAbandon? ==>
                  (Cancelling(c') <==> w.stage.Producing?)
                  && v.abandons == w.abandons + (if w.stage.Producing? then 1 else 0))
            && (c.WaitCheck? ==> (c'.WaitAbandon? <==> late))
  {
  }

  // ---- A call that has won ---------------------------------------------

  /** The resource is this thread's, or has been. */
  predicate Has(w: World, id: nat, value: Resource) {
    id < |w.consumers| && (Won(w.consumers[id]) || w.delivered == [value])
  }

  lemma WinnerStep(w: World, value: Resource, id: nat, m: Move)
    requires Inv(w, value) && Enabled(w, m) && Has(w, id, value)
    ensures Has(Step(w, m), id, value)
  {
    hide LockRight;
    if m.Go? && m.id != id && Won(w.consumers[id]) {
      assert !Won(w.consumers[m.id]);
    }
  }

  lemma {:induction false} WinnerRuns(w: World, value: Resource, id: nat, moves: seq<Move>, end: World)
    requires Inv(w, value) && Reaches(w, moves, end) && Has(w, id, value)
    ensures Has(end, id, value)
    decreases |moves|
  {
    hide Inv, Step, Has;
    if moves != [] {
      StepKeeps(w, value, moves[0]);
      WinnerStep(w, value, id, moves[0]);
      WinnerRuns(Step(w, moves[0]), value, id, moves[1..], end);
    }
  }

  /** Over every run: a take or a wait that looks at a ready stage wins, and
      whenever its thread rests after that the resource has been delivered. */
  lemma WinnerIsDelivered(value: Resource, consumers: nat, before: seq<Move>, w: World, id: nat, late: bool,
                          after: seq<Move>, end: World)
    requires Reaches(NewWorld(value, consumers), before, w) && Enabled(w, Go(id, late))
    requires (w.consumers[id].Taking? || w.consumers[id].WaitLoop?) && w.stage.Ready?
    requires Reaches(Step(w, Go(id, late)), after, end)
    ensures Won(Step(w, Go(id, late)).consumers[id])
    ensures id < |end.consumers| && (end.consumers[id].Idle? ==> end.delivered == [value])
  {
    hide Inv;
    NewInv(value, consumers);
    RunKeeps(NewWorld(value, consumers), value, before, w);
    CallsDecide(w, id, late);
    StepKeeps(w, value, Go(id, late));
    WinnerRuns(Step(w, Go(id, late)), value, id, after, end);
  }

  /** The operation is given up by this thread, or has been cancelled. */
  predicate Stops(w: World, id: nat) {
    id < |w.consumers| && (Cancelling(w.consumers[id]) || w.cancelled)
  }

  lemma {:induction false} StopperRuns(w: World, id: nat, moves: seq<Move>, end: World)
    requires Reaches(w, moves, end) && Stops(w, id)
    ensures Stops(end, id)
    decreases |moves|
  {
    hide Step, Stops;
    if moves != [] {
      StopperStep(w, moves[0], id);
      StopperRuns(Step(w, moves[0]), id, moves[1..], end);
    }
  }

  /** Over every run: an abandon, or a wait past its deadline, that looks at a
      producing stage gives the operation up, and whenever its thread rests after
      that the producer has been told to stop. */
  lemma StopperIsHeard(w: World, id: nat, late: bool, after: seq<Move>, end: World)
    requires Enabled(w, Go(id, late)) && w.stage.Producing?
    requires w.consumers[id].Abandoning? || w.consumers[id].WaitAbandon?
    requires Reaches(Step(w, Go(id, late)), after, end)
    ensures Cancelling(Step(w, Go(id, late)).consumers[id])
    ensures id < |end.consumers| && (end.consumers[id].Idle? ==> end.cancelled)
  {
    CallsDecide(w, id, late);
    StopperRuns(Step(w, Go(id, late)), id, after, end);
  }

  // ---- Cancellation ----------------------------------------------------

  /** The one that gave up is still to cancel, or it has. */
  ghost predicate CancelRight(w: World) {
    && (w.cancelled ==> w.abandons == 1)
    && (w.abandons == 1 ==> w.cancelled || exists i :: 0 <= i < |w.consumers| && Cancelling(w.consumers[i]))
  }

  lemma CancelStep(w: World, value: Resource, m: Move)
    requires Inv(w, value) && Enabled(w, m) && CancelRight(w)
    ensures CancelRight(Step(w, m))
  {
    hide Inv;
    StepKeeps(w, value, m);
    AbandonsRight(Step(w, m), value);
    if w.abandons == 1 && !w.cancelled {
      var i :| 0 <= i < |w.consumers| && Cancelling(w.consumers[i]);
      StopperStep(w, m, i);
    } else if m.Go? && Step(w, m).abandons == 1 {
      GivesUp(w, m.id, m.late);
    }
  }

  /** A thread that is about to cancel still is, or has. */
  lemma StopperStep(w: World, m: Move, i: nat)
    requires Enabled(w, m) && Stops(w, i)
    ensures Stops(Step(w, m), i)
  {
  }

  lemma GivesUp(w: World, id: nat, late: bool)
    requires Enabled(w, Go(id, late))
    ensures var v := Step(w, Go(id, late));
            && |v.consumers| == |w.consumers|
            && (v.abandons != w.abandons ==> Cancelling(v.consumers[id]))
            && (w.cancelled ==> v.cancelled)
  {
  }

  lemma AbandonsRight(w: World, value: Resource)
    requires Inv(w, value)
    ensures w.cancelled ==> w.abandons == 1
  {
  }

  lemma {:induction false} CancelRuns(w: World, value: Resource, moves: seq<Move>, end: World)
    requires Inv(w, value) && Reaches(w, moves, end) && CancelRight(w)
    ensures CancelRight(end)
    decreases |moves|
  {
    hide Inv, Step, CancelRight;
    if moves != [] {
      StepKeeps(w, value, moves[0]);
      CancelStep(w, value, moves[0]);
      CancelRuns(Step(w, moves[0]), value, moves[1..], end);
    }
  }

  /** Over every run: once no thread is about to cancel, the producer has been told
      to stop exactly if an abandon won. */
  lemma CancelledExactly(value: Resource, consumers: nat, moves: seq<Move>, w: World)
    requires Reaches(NewWorld(value, consumers), moves, w)
    requires forall i :: 0 <= i < |w.consumers| ==> !Cancelling(w.consumers[i])
    ensures w.cancelled <==> w.abandons == 1
  {
    hide Inv;
    NewInv(value, consumers);
    CancelRuns(NewWorld(value, consumers), value, moves, w);
  }

  // ---- The producer's answer -------------------------------------------

  /** What the reaper last answered along the run. */
  function ReaperSaid(w: World, moves: seq<Move>, before: Option<bool>): Option<bool>
    decreases |moves|
  {
    if moves == [] || !Enabled(w, moves[0]) then before
    else
      var said := if moves[0].Produce? && w.producer.ReapArmed? then Some(moves[0].cleaned) else before;
      ReaperSaid(Step(w, moves[0]), moves[1..], said)
  }

  predicate Remembers(p: Producer, said: Option<bool>) {
    match p
    case Cleaned(ok) => said == Some(ok)
    case ReapAnnouncing(ok) => said == Some(ok)
    case Finished(ok) => said == Some(ok)
    case _ => true
  }

  lemma ReaperStep(w: World, m: Move, before: Option<bool>)
    requires Enabled(w, m) && Remembers(w.producer, before)
    ensures Remembers(Step(w, m).producer,
                      if m.Produce? && w.producer.ReapArmed? then Some(m.cleaned) else before)
  {
  }

  lemma {:induction false} ReaperRuns(w: World, moves: seq<Move>, end: World, before: Option<bool>)
    requires Reaches(w, moves, end) && Remembers(w.producer, before)
    ensures Remembers(end.producer, ReaperSaid(w, moves, before))
    decreases |moves|
  {
    hide Step, Remembers;
    if moves != [] {
      var said := if moves[0].Produce? && w.producer.ReapArmed? then Some(moves[0].cleaned) else before;
      ReaperStep(w, moves[0], before);
      ReaperRuns(Step(w, moves[0]), moves[1..], end, said);
    }
  }

  /** Over every run: a producer that has come back has published exactly if nobody
      gave up before; else it tells what the reaper answered, and so does the stage. */
  lemma PublishAnswers(value: Resource, consumers: nat, moves: seq<Move>, w: World)
    requires Reaches(NewWorld(value, consumers), moves, w) && (w.producer.Published? || w.producer.Finished?)
    ensures w.producer.Published? <==> w.abandons == 0
    ensures w.producer.Finished? ==>
              && ReaperSaid(NewWorld(value, consumers), moves, None) == Some(w.producer.ok)
              && w.stage == (if w.producer.ok then Reaped else CleanupFailed)
  {
    NewInv(value, consumers);
    RunKeeps(NewWorld(value, consumers), value, moves, w);
    ReaperRuns(NewWorld(value, consumers), moves, w, None);
  }

  // ---- What can be done ------------------------------------------------

  lemma Enough(w: World, m: Move, moves: seq<Move>, end: World)
    requires Enabled(w, m) && Reaches(Step(w, m), moves, end)
    ensures Reaches(w, [m] + moves, end)
  {
    hide Step, Enabled;
    assert ([m] + moves)[1..] == moves;
  }

  /** From every reachable world with a ready stage and a free lock: any thread at
      rest can take, and the resource is delivered. */
  lemma ReadyCanBeTaken(value: Resource, consumers: nat, before: seq<Move>, w: World, id: nat)
    returns (moves: seq<Move>, end: World)
    requires Reaches(NewWorld(value, consumers), before, w)
    requires id < |w.consumers| && w.consumers[id].Idle? && w.stage.Ready? && w.lock.None?
    ensures moves == [Begin(id, Take), Go(id, false), Go(id, false), Go(id, false)]
    ensures Reaches(w, moves, end) && end.delivered == [value] && end.stage.Taken?
    ensures id < |end.consumers| && end.consumers[id].Idle?
  {
    NewInv(value, consumers);
    RunKeeps(NewWorld(value, consumers), value, before, w);
    var go := Go(id, false);
    var w1 := Step(w, Begin(id, Take));
    assert w1.consumers[id] == Taking;
    var w2 := Step(w1, go);
    assert w2.consumers[id] == TakeWon;
    var w3 := Step(w2, go);
    assert w3.consumers[id] == TakeLocked;
    end := Step(w3, go);
    moves := [Begin(id, Take)] + ([go] + ([go] + ([go] + [])));
    assert Reaches(end, [], end);
    Enough(w3, go, [], end);
    Enough(w2, go, [go] + [], end);
    Enough(w1, go, [go] + ([go] + []), end);
    Enough(w, Begin(id, Take), [go] + ([go] + ([go] + [])), end);
  }

  /** A producer nobody gives up on publishes in four steps. */
  lemma PublishComesAbout(value: Resource, consumers: nat) returns (moves: seq<Move>, w: World)
    ensures Reaches(NewWorld(value, consumers), moves, w)
    ensures w.producer.Published? && w.stage.Ready? && w.lock.None? && w.cell == Some(value)
    ensures |w.consumers| == consumers && forall i :: 0 <= i < |w.consumers| ==> w.consumers[i].Idle?
  {
    var p := Produce(true);
    var w0 := NewWorld(value, consumers);
    var w1 := Step(w0, p);
    var w2 := Step(w1, p);
    var w3 := Step(w2, p);
    w := Step(w3, p);
    moves := [p] + ([p] + ([p] + ([p] + [])));
    assert Reaches(w, [], w);
    Enough(w3, p, [], w);
    Enough(w2, p, [p] + [], w);
    Enough(w1, p, [p] + ([p] + []), w);
    Enough(w0, p, [p] + ([p] + ([p] + [])), w);
  }

  /** The world after an abandon that came before anything was written. */
  function GivenUpEarly(value: Resource): World {
    World(Abandoned, None, None, true, true, Owning(value), [Idle], [], [], 1)
  }

  /** An abandoned operation is reaped, whatever its reaper answers. */
  lemma ReapComesAbout(value: Resource, cleaned: bool) returns (moves: seq<Move>, w: World)
    ensures Reaches(NewWorld(value, 1), moves, w)
    ensures w.producer == Finished(cleaned) && w.reaped == [value] && w.cancelled && w.delivered == []
  {
    var go, p := Go(0, false), Produce(cleaned);
    var w0 := NewWorld(value, 1);
    var w1 := Step(w0, Begin(0, Abandon));
    assert w1.consumers == [Abandoning];
    var w2 := Step(w1, go);
    assert w2.consumers == [AbandonWon];
    assert Step(w2, go) == GivenUpEarly(value);
    var rest := ReapsFrom(value, cleaned, 0);
    w := ReapWorld(value, cleaned, 10);
    moves := [Begin(0, Abandon)] + ([go] + ([go] + rest));
    Enough(w2, go, rest, w);
    Enough(w1, go, [go] + rest, w);
    Enough(w0, Begin(0, Abandon), [go] + ([go] + rest), w);
  }

  /** What the producer then goes through. */
  function ReapWorld(value: Resource, cleaned: bool, k: nat): World
    requires k <= 10
  {
    var w := GivenUpEarly(value);
    var late := w.(cell := Some(value), producer := Late);
    var taken := w.(stage := Reaping, producer := ReapTook(value));
    var reaped := taken.(reaper := false, reaped := [value], producer := Cleaned(cleaned));
    var told := reaped.(stage := if cleaned then Reaped else CleanupFailed);
    if k == 0 then w
    else if k == 1 then w.(lock := Some(ByProducer), producer := WriteLocked(value))
    else if k == 2 then late.(producer := Written)
    else if k == 3 then late
    else if k == 4 then late.(stage := Reaping, producer := ReapWaiting)
    else if k == 5 then late.(stage := Reaping, lock := Some(ByProducer), producer := ReapLocked)
    else if k == 6 then taken
    else if k == 7 then taken.(reaper := false, producer := ReapArmed(value))
    else if k == 8 then reaped
    else if k == 9 then told.(producer := ReapAnnouncing(cleaned))
    else told.(producer := Finished(cleaned))
  }

  lemma ReapStep(value: Resource, cleaned: bool, k: nat)
    requires k < 10
    ensures Enabled(ReapWorld(value, cleaned, k), Produce(cleaned))
    ensures Step(ReapWorld(value, cleaned, k), Produce(cleaned)) == ReapWorld(value, cleaned, k + 1)
  {
  }

  lemma {:induction false} ReapsFrom(value: Resource, cleaned: bool, k: nat) returns (moves: seq<Move>)
    requires k <= 10
    ensures Reaches(ReapWorld(value, cleaned, k), moves, ReapWorld(value, cleaned, 10))
    decreases 10 - k
  {
    hide ReapWorld, Step, Enabled;
    if k == 10 {
      moves := [];
    } else {
      ReapStep(value, cleaned, k);
      var rest := ReapsFrom(value, cleaned, k + 1);
      moves := [Produce(cleaned)] + rest;
      Enough(ReapWorld(value, cleaned, k), Produce(cleaned), rest, ReapWorld(value, cleaned, 10));
    }
  }
}
