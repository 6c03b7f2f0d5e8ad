/** The single-result hand-off between one producer and any number of consumer
    threads.  Every atomic operation, lock acquisition and lock section is one
    step; steps of different threads interleave freely. */
module OwnedOp {
  import opened Common

  /** The owned resource, told apart by a number. */
  type Resource = nat

  datatype Stage = Producing | Ready | Taken | Abandoned | Reaping | Reaped | CleanupFailed

  datatype Call = Take | Abandon | Wait

  /** Where a consumer thread is.  A wait remembers the stage it found first,
      whether its deadline has passed, and how often it went round after that. */
  datatype Consumer =
    | Idle
    | Taking
    | TakeWon
    | TakeLocked
    | Abandoning
    | AbandonWon
    | WaitEntering
    | WaitLoop(entry: Stage, late: bool, spins: nat)
    | WaitWon
    | WaitCheck(entry: Stage, late: bool, spins: nat)
    | WaitAbandon(entry: Stage, spins: nat)
    | WaitCancel
    | WaitAsleep(entry: Stage, spins: nat)

  /** Where `publish` is; `Broken` stands for the sites that would panic. */
  datatype Producer =
    | Owning(value: Resource)
    | WriteLocked(value: Resource)
    | Written
    | Announcing
    | Published
    | Late
    | ReapWaiting
    | ReapLocked
    | ReapTook(value: Resource)
    | ReapArmed(value: Resource)
    | Cleaned(ok: bool)
    | ReapAnnouncing(ok: bool)
    | Finished(ok: bool)
    | Broken

  datatype Owner = ByProducer | By(id: nat)

  /** The shared cell and its companions, every thread, and what became of the resource. */
  datatype World = World(
    stage: Stage,
    cell: Option<Resource>,
    lock: Option<Owner>,
    reaper: bool,
    cancelled: bool,
    producer: Producer,
    consumers: seq<Consumer>,
    delivered: seq<Resource>,
    reaped: seq<Resource>,
    abandons: nat)

  function NewWorld(value: Resource, consumers: nat): World {
    World(Producing, None, None, true, false, Owning(value), seq(consumers, _ => Idle), [], [], 0)
  }

  datatype Move = Produce(cleaned: bool) | Begin(id: nat, call: Call) | Go(id: nat, late: bool)

  predicate WantsLock(c: Consumer) {
    c.TakeWon? || c.WaitEntering? || c.WaitAsleep?
  }

  predicate Enabled(w: World, m: Move) {
    match m
    case Produce(_) =>
      && !w.producer.Published? && !w.producer.Finished? && !w.producer.Broken?
      && (w.producer.Owning? || w.producer.ReapWaiting? ==> w.lock.None?)
    case Begin(id, _) => id < |w.consumers| && w.consumers[id].Idle?
    case Go(id, late) =>
      && id < |w.consumers| && !w.consumers[id].Idle?
      && (WantsLock(w.consumers[id]) ==> w.lock.None?)
      && (w.consumers[id].WaitCheck? && w.consumers[id].late ==> late)
  }

  function Step(w: World, m: Move): World
    requires Enabled(w, m)
  {
    match m
    case Produce(cleaned) => Publish(w, cleaned)
    case Begin(id, call) =>
      At(w, id, match call case Take => Taking case Abandon => Abandoning case Wait => WaitEntering)
    case Go(id, late) => Consume(w, id, late)
  }

  function At(w: World, id: nat, c: Consumer): World
    requires id < |w.consumers|
  {
    w.(consumers := w.consumers[id := c])
  }

  /** A compare-and-exchange from Producing to Abandoned that succeeded. */
  function GiveUp(w: World): World {
    w.(stage := Abandoned, abandons := w.abandons + 1)
  }

  function Deliver(w: World): World {
    w.(cell := None, lock := None, delivered := if w.cell.Some? then w.delivered + [w.cell.value] else w.delivered)
  }

  /** Where one step takes a thread. */
  function Moved(c: Consumer, stage: Stage, late: bool): Consumer {
    match c
    case Idle => Idle
    case Taking => if stage.Ready? then TakeWon else Idle
    case TakeWon => TakeLocked
    case TakeLocked => Idle
    case Abandoning => if stage.Producing? then AbandonWon else Idle
    case AbandonWon => Idle
    case WaitEntering => WaitLoop(stage, false, 0)
    case WaitLoop(entry, was, spins) => if stage.Ready? then WaitWon else WaitCheck(entry, was, spins)
    case WaitWon => Idle
    case WaitCheck(entry, was, spins) => if late then WaitAbandon(entry, spins) else WaitAsleep(entry, spins)
    case WaitAbandon(entry, spins) => if stage.Producing? then WaitCancel else WaitLoop(entry, true, spins + 1)
    case WaitCancel => Idle
    case WaitAsleep(entry, spins) => WaitLoop(entry, false, spins)
  }

  /** What the step does to everything shared. */
  function Shared(w: World, c: Consumer, id: nat, late: bool): World {
    match c
    case Taking => if w.stage.Ready? then w.(stage := Taken) else w
    case TakeWon => w.(lock := Some(By(id)))
    case TakeLocked => Deliver(w)
    case Abandoning => if w.stage.Producing? then GiveUp(w) else w
    case AbandonWon => w.(cancelled := true)
    case WaitEntering => w.(lock := Some(By(id)))
    case WaitLoop(_, _, _) => if w.stage.Ready? then w.(stage := Taken) else w
    case WaitWon => Deliver(w)
    case WaitCheck(_, _, _) => if late then w else w.(lock := None)
    case WaitAbandon(_, _) => if w.stage.Producing? then GiveUp(w) else w
    case WaitCancel => w.(cancelled := true, lock := None)
    case WaitAsleep(_, _) => w.(lock := Some(By(id)))
    case Idle => w
  }

  function Consume(w: World, id: nat, late: bool): World
    requires id < |w.consumers|
  {
    var c := w.consumers[id];
    At(Shared(w, c, id, late).(consumers := w.consumers), id, Moved(c, w.stage, late))
  }

  function Publish(w: World, cleaned: bool): World {
    match w.producer
    case Owning(value) => w.(lock := Some(ByProducer), producer := WriteLocked(value))
    case WriteLocked(value) => w.(cell := Some(value), lock := None, producer := Written)
    case Written =>
      if w.stage.Producing? then w.(stage := Ready, producer := Announcing)
      else if w.stage.Abandoned? then w.(producer := Late)
      else w.(producer := Broken)
    case Announcing => w.(producer := Published)
    case Late => w.(stage := Reaping, producer := ReapWaiting)
    case ReapWaiting => w.(lock := Some(ByProducer), producer := ReapLocked)
    case ReapLocked =>
      w.(cell := None, lock := None, producer := if w.cell.Some? then ReapTook(w.cell.value) else Broken)
    case ReapTook(value) => w.(reaper := false, producer := if w.reaper then ReapArmed(value) else Broken)
    case ReapArmed(value) => w.(reaped := w.reaped + [value], producer := Cleaned(cleaned))
    case Cleaned(ok) => w.(stage := if ok then Reaped else CleanupFailed, producer := ReapAnnouncing(ok))
    case ReapAnnouncing(ok) => w.(producer := Finished(ok))
    case _ => w
  }

  // ---- The invariant ---------------------------------------------------

  predicate Locked(c: Consumer) {
    c.TakeLocked? || c.WaitLoop? || c.WaitWon? || c.WaitCheck? || c.WaitAbandon? || c.WaitCancel?
  }

  predicate Won(c: Consumer) {
    c.TakeWon? || c.TakeLocked? || c.WaitWon?
  }

  predicate LockRight(w: World) {
    && (forall i :: 0 <= i < |w.consumers| ==> (Locked(w.consumers[i]) <==> w.lock == Some(By(i))))
    && (w.lock == Some(ByProducer) <==> w.producer.WriteLocked? || w.producer.ReapLocked?)
    && (w.lock.Some? && w.lock.value.By? ==> w.lock.value.id < |w.consumers|)
  }

  /** A thread that has won the resource is the only one, and it is still there for it. */
  predicate WinnerRight(w: World, value: Resource) {
    && (forall i, j :: 0 <= i < j < |w.consumers| ==> !(Won(w.consumers[i]) && Won(w.consumers[j])))
    && (forall i :: 0 <= i < |w.consumers| && Won(w.consumers[i]) ==> w.stage.Taken? && w.cell == Some(value))
    && (w.stage.Taken? && w.cell.Some? ==> exists i :: 0 <= i < |w.consumers| && Won(w.consumers[i]))
    && (forall i :: 0 <= i < |w.consumers| && Cancelling(w.consumers[i]) ==> GivenUp(w.stage))
  }

  predicate Cancelling(c: Consumer) {
    c.AbandonWon? || c.WaitCancel?
  }

  predicate Untouched(w: World) {
    w.delivered == [] && w.reaped == []
  }

  predicate GivenUp(stage: Stage) {
    stage.Abandoned? || stage.Reaping? || stage.Reaped? || stage.CleanupFailed?
  }

  predicate StageRight(w: World, value: Resource) {
    && w.abandons == (if GivenUp(w.stage) then 1 else 0)
    && (w.cancelled ==> w.abandons == 1)
    && (w.reaper <==>
        !w.producer.ReapArmed? && !w.producer.Cleaned? && !w.producer.ReapAnnouncing? && !w.producer.Finished?)
    && match w.producer
       case Owning(x) => x == value && w.cell.None? && Untouched(w) && (w.stage.Producing? || w.stage.Abandoned?)
       case WriteLocked(x) => x == value && w.cell.None? && Untouched(w) && (w.stage.Producing? || w.stage.Abandoned?)
       case Written => w.cell == Some(value) && Untouched(w) && (w.stage.Producing? || w.stage.Abandoned?)
       case Announcing => PublishedRight(w, value)
       case Published => PublishedRight(w, value)
       case Late => w.cell == Some(value) && Untouched(w) && w.stage.Abandoned?
       case ReapWaiting => w.cell == Some(value) && Untouched(w) && w.stage.Reaping?
       case ReapLocked => w.cell == Some(value) && Untouched(w) && w.stage.Reaping?
       case ReapTook(x) => x == value && w.cell.None? && Untouched(w) && w.stage.Reaping?
       case ReapArmed(x) => x == value && w.cell.None? && Untouched(w) && w.stage.Reaping?
       case Cleaned(_) => w.cell.None? && w.delivered == [] && w.reaped == [value] && w.stage.Reaping?
       case ReapAnnouncing(ok) => FinishedRight(w, value, ok)
       case Finished(ok) => FinishedRight(w, value, ok)
       case Broken => false
  }

  predicate PublishedRight(w: World, value: Resource) {
    && w.reaped == []
    && (|| (w.stage.Ready? && w.cell == Some(value) && w.delivered == [])
        || (w.stage.Taken? && w.cell == Some(value) && w.delivered == [])
        || (w.stage.Taken? && w.cell.None? && w.delivered == [value]))
  }

  predicate FinishedRight(w: World, value: Resource, ok: bool) {
    && w.cell.None? && w.delivered == [] && w.reaped == [value]
    && w.stage == (if ok then Reaped else CleanupFailed)
  }

  predicate Inv(w: World, value: Resource) {
    LockRight(w) && WinnerRight(w, value) && StageRight(w, value)
  }

  lemma NewInv(value: Resource, consumers: nat)
    ensures Inv(NewWorld(value, consumers), value)
  {
  }

  lemma PublishKeeps(w: World, value: Resource, cleaned: bool)
    requires Inv(w, value) && Enabled(w, Produce(cleaned))
    ensures Inv(Publish(w, cleaned), value)
  {
    hide WinnerRight, StageRight;
    ProducerLeavesWinner(w, value, cleaned);
    ProducerKeepsStage(w, value, cleaned);
  }

  lemma ProducerLeavesWinner(w: World, value: Resource, cleaned: bool)
    requires WinnerRight(w, value) && StageRight(w, value)
    ensures WinnerRight(Publish(w, cleaned), value)
  {
    var w' := Publish(w, cleaned);
    assert w'.stage.Taken? <==> w.stage.Taken?;
    assert w.stage.Taken? ==> w'.cell == w.cell;
    assert GivenUp(w.stage) ==> GivenUp(w'.stage);
  }

  lemma ProducerKeepsStage(w: World, value: Resource, cleaned: bool)
    requires StageRight(w, value)
    ensures StageRight(Publish(w, cleaned), value)
  {
  }

  lemma BeginKeeps(w: World, value: Resource, id: nat, call: Call)
    requires Inv(w, value) && Enabled(w, Begin(id, call))
    ensures Inv(Step(w, Begin(id, call)), value)
  {
    hide StageRight;
    var w' := Step(w, Begin(id, call));
    assert StageRight(w', value) by { StageIgnoresThreads(w, value, w'.consumers); }
    if w.stage.Taken? && w.cell.Some? {
      ThreadsKeep(w, w', id);
    }
  }

  lemma StageIgnoresThreads(w: World, value: Resource, consumers: seq<Consumer>)
    requires StageRight(w, value)
    ensures StageRight(w.(consumers := consumers), value)
  {
  }

  /** A thread that neither holds nor wins moves without anybody noticing. */
  lemma ThreadsKeep(w: World, w': World, id: nat)
    requires id < |w.consumers| && |w'.consumers| == |w.consumers|
    requires forall i :: 0 <= i < |w.consumers| && i != id ==> w'.consumers[i] == w.consumers[i]
    requires !Won(w.consumers[id]) && w.cell.Some?
    requires exists i :: 0 <= i < |w.consumers| && Won(w.consumers[i])
    ensures exists i :: 0 <= i < |w'.consumers| && Won(w'.consumers[i])
  {
    var i :| 0 <= i < |w.consumers| && Won(w.consumers[i]);
    assert Won(w'.consumers[i]);
  }

  lemma LockMoves(w: World, id: nat, late: bool)
    requires LockRight(w) && Enabled(w, Go(id, late))
    ensures LockRight(Consume(w, id, late))
  {
    var c := w.consumers[id];
    var lock := Shared(w, c, id, late).lock;
    assert Locked(Moved(c, w.stage, late)) <==> lock == Some(By(id));
    assert lock == w.lock || lock.None? || lock == Some(By(id));
    assert lock != w.lock ==> w.lock.None? || w.lock == Some(By(id));
  }

  /** What any thread's step can do to the shared part. */
  predicate SharedMove(w: World, w': World, winner: bool, cancelling: bool) {
    || (w.stage.Ready? && w' == w.(stage := Taken))
    || (winner && w' == Deliver(w))
    || (w.stage.Producing? && w' == GiveUp(w))
    || (w' == w.(cancelled := w'.cancelled, lock := w'.lock) && (w'.cancelled ==> w.cancelled || cancelling))
  }

  lemma SharedMoves(w: World, id: nat, late: bool)
    requires id < |w.consumers|
    ensures var c := w.consumers[id]; SharedMove(w, Shared(w, c, id, late), Won(c), Cancelling(c))
  {
  }

  lemma SharedMoveKeepsStage(w: World, w': World, value: Resource, winner: bool, cancelling: bool)
    requires StageRight(w, value) && SharedMove(w, w', winner, cancelling)
    requires winner ==> w.stage.Taken? && w.cell == Some(value)
    requires cancelling ==> GivenUp(w.stage)
    ensures StageRight(w', value)
  {
  }

  lemma StageMoves(w: World, value: Resource, id: nat, late: bool)
    requires StageRight(w, value) && Enabled(w, Go(id, late))
    requires Won(w.consumers[id]) ==> w.stage.Taken? && w.cell == Some(value)
    requires Cancelling(w.consumers[id]) ==> GivenUp(w.stage)
    ensures StageRight(Consume(w, id, late), value)
  {
    hide StageRight, SharedMove, Shared;
    var c := w.consumers[id];
    var w1 := Shared(w, c, id, late);
    SharedMoves(w, id, late);
    SharedMoveKeepsStage(w, w1, value, Won(c), Cancelling(c));
    StageIgnoresThreads(w1, value, Consume(w, id, late).consumers);
  }

  /** What the step of a thread does to itself, the stage and the cell. */
  predicate WinnerStep(w: World, c: Consumer, c': Consumer, w': World) {
    && (Won(c') ==> Won(c) || (w.stage.Ready? && w'.stage.Taken?))
    && (w.stage.Taken? ==> w'.stage.Taken? && (w'.cell == w.cell || (Won(c) && w'.cell.None?)))
    && (Won(c) && !Won(c') ==> w'.cell.None?)
    && (Won(c') ==> w'.cell == w.cell)
    && (GivenUp(w.stage) || (Cancelling(c') && !Cancelling(c)) ==> GivenUp(w'.stage))
    && (!w.stage.Taken? && w'.stage.Taken? ==> w.stage.Ready? && Won(c') && w'.cell == w.cell)
    && (w'.cell.Some? ==> w'.cell == w.cell)
  }

  lemma SharedWinner(w: World, c: Consumer, id: nat, late: bool)
    requires !c.Idle?
    ensures WinnerStep(w, c, Moved(c, w.stage, late), Shared(w, c, id, late))
  {
  }

  lemma WinnerMoves(w: World, value: Resource, id: nat, late: bool)
    requires WinnerRight(w, value) && Enabled(w, Go(id, late))
    requires w.stage.Ready? ==> w.cell == Some(value)
    ensures WinnerRight(Consume(w, id, late), value)
  {
    hide Shared, Moved, GivenUp;
    SharedWinner(w, w.consumers[id], id, late);
    var c, w' := w.consumers[id], Consume(w, id, late);
    if w'.stage.Taken? && w'.cell.Some? {
      if w.stage.Ready? {
        assert Won(w'.consumers[id]);
      } else if Won(c) {
        assert Won(w'.consumers[id]);
      } else {
        ThreadsKeep(w, w', id);
      }
    }
  }

  lemma ReadyHolds(w: World, value: Resource)
    requires StageRight(w, value) && w.stage.Ready?
    ensures w.cell == Some(value)
  {
  }

  lemma ConsumeKeeps(w: World, value: Resource, id: nat, late: bool)
    requires Inv(w, value) && Enabled(w, Go(id, late))
    ensures Inv(Consume(w, id, late), value)
  {
    hide LockRight, StageRight, Consume;
    LockMoves(w, id, late);
    StageMoves(w, value, id, late);
    if w.stage.Ready? {
      ReadyHolds(w, value);
    }
    WinnerMoves(w, value, id, late);
  }

  lemma StepKeeps(w: World, value: Resource, m: Move)
    requires Inv(w, value) && Enabled(w, m)
    ensures Inv(Step(w, m), value)
  {
    hide LockRight, StageRight, WinnerRight, Publish, Consume;
    match m {
      case Produce(cleaned) => PublishKeeps(w, value, cleaned);
      case Begin(id, call) => BeginKeeps(w, value, id, call);
      case Go(id, late) => ConsumeKeeps(w, value, id, late);
    }
  }

  ghost predicate Reaches(w: World, moves: seq<Move>, end: World)
    decreases |moves|
  {
    if moves == [] then end == w
    else Enabled(w, moves[0]) && Reaches(Step(w, moves[0]), moves[1..], end)
  }

  lemma {:induction false} RunKeeps(w: World, value: Resource, moves: seq<Move>, end: World)
    requires Inv(w, value) && Reaches(w, moves, end)
    ensures Inv(end, value)
    decreases |moves|
  {
    hide Inv;
    if moves != [] {
      StepKeeps(w, value, moves[0]);
      RunKeeps(Step(w, moves[0]), value, moves[1..], end);
    }
  }

  function Count(b: bool): nat {
    if b then 1 else 0
  }

  /** Who has the resource: the producer before it writes or while it reaps, the
      cell, a consumer, or the reaper. */
  function Holders(w: World): nat {
    Count(w.producer.Owning? || w.producer.WriteLocked? || w.producer.ReapTook? || w.producer.ReapArmed?)
    + Count(w.cell.Some?) + |w.delivered| + |w.reaped|
  }

  /** In every interleaving the resource is in exactly one place, ends with one
      consumer or with the reaper but never both, the reaper has it at most once
      and only after an abandon won, a thread that has won it finds it in the
      cell, and no panicking site is reached. */
  lemma ExactlyOnce(value: Resource, consumers: nat, moves: seq<Move>, w: World)
    requires Reaches(NewWorld(value, consumers), moves, w)
    ensures Holders(w) == 1
    ensures |w.delivered| + |w.reaped| <= 1
    ensures w.reaped != [] ==> w.abandons == 1
    ensures w.delivered != [] ==> w.abandons == 0 && !w.cancelled
    ensures w.abandons <= 1
    ensures !w.producer.Broken?
    ensures w.producer.Finished? ==> w.reaped == [value]
    ensures forall i, j :: 0 <= i < j < |w.consumers| ==> !(Won(w.consumers[i]) && Won(w.consumers[j]))
    ensures forall i :: 0 <= i < |w.consumers| && Won(w.consumers[i]) ==> w.cell == Some(value)
  {
    NewInv(value, consumers);
    RunKeeps(NewWorld(value, consumers), value, moves, w);
  }

  /** Once everything has come to rest, a published resource that nobody took is
      still there for the next taker, and an abandoned one has been reaped. */
  lemma AtRest(value: Resource, consumers: nat, moves: seq<Move>, w: World)
    requires Reaches(NewWorld(value, consumers), moves, w)
    requires w.producer.Published? || w.producer.Finished?
    requires forall i :: 0 <= i < |w.consumers| ==> w.consumers[i].Idle?
    ensures if w.producer.Finished? then w.reaped == [value] && w.delivered == [] && w.abandons == 1
            else if w.stage.Ready? then w.cell == Some(value) && w.delivered == []
            else w.delivered == [value] && w.stage.Taken?
  {
    NewInv(value, consumers);
    RunKeeps(NewWorld(value, consumers), value, moves, w);
  }

  // ---- When a wait returns ---------------------------------------------

  predicate Waiting(c: Consumer) {
    c.WaitLoop? || c.WaitCheck? || c.WaitAbandon? || c.WaitAsleep?
  }

  predicate Hopeful(stage: Stage) {
    stage.Producing? || stage.Ready?
  }

  /** With one consumer: a wait that began on a stage with hope keeps it, goes
      round at most once after its deadline, and then finds the result ready. */
  predicate SoleWait(w: World) {
    |w.consumers| == 1 && Waiting(w.consumers[0]) && Hopeful(w.consumers[0].entry) ==>
      var c := w.consumers[0];
      && Hopeful(w.stage)
      && c.spins <= 1
      && (c.spins == 1 ==> c.WaitLoop? && w.stage.Ready?)
  }

  lemma SoleWaitKeeps(w: World, value: Resource, m: Move)
    requires Inv(w, value) && SoleWait(w) && Enabled(w, m)
    ensures SoleWait(Step(w, m))
  {
    hide Inv, SoleWait;
    match m {
      case Produce(cleaned) => SoleWaitProduces(w, value, cleaned);
      case Begin(id, call) => SoleWaitBegins(w, value, m);
      case Go(id, late) => SoleWaitGoes(w, value, m);
    }
  }

  lemma SoleWaitProduces(w: World, value: Resource, cleaned: bool)
    requires Inv(w, value) && SoleWait(w) && Enabled(w, Produce(cleaned))
    ensures SoleWait(Step(w, Produce(cleaned)))
  {
    hide LockRight;
  }

  lemma SoleWaitBegins(w: World, value: Resource, m: Move)
    requires Inv(w, value) && SoleWait(w) && Enabled(w, m) && m.Begin?
    ensures SoleWait(Step(w, m))
  {
    hide LockRight, StageRight, WinnerRight;
  }

  lemma SoleWaitGoes(w: World, value: Resource, m: Move)
    requires Inv(w, value) && SoleWait(w) && Enabled(w, m) && m.Go?
    ensures SoleWait(Step(w, m))
  {
    hide LockRight, StageRight;
  }

  lemma {:induction false} SoleWaitRuns(w: World, value: Resource, moves: seq<Move>, end: World)
    requires Inv(w, value) && SoleWait(w) && Reaches(w, moves, end)
    ensures Inv(end, value) && SoleWait(end)
    decreases |moves|
  {
    hide Inv, SoleWait;
    if moves != [] {
      StepKeeps(w, value, moves[0]);
      SoleWaitKeeps(w, value, moves[0]);
      SoleWaitRuns(Step(w, moves[0]), value, moves[1..], end);
    }
  }

  /** How many of its own steps a wait past its deadline still needs. */
  function StepsLeft(w: World): nat
    requires |w.consumers| == 1
  {
    match w.consumers[0]
    case WaitLoop(_, _, _) => if w.stage.Ready? then 2 else 5
    case WaitCheck(_, _, _) => 4
    case WaitAbandon(_, _) => 3
    case WaitWon => 1
    case WaitCancel => 1
    case _ => 0
  }

  predicate PastDeadline(c: Consumer) {
    match c
    case WaitLoop(entry, late, _) => late && Hopeful(entry)
    case WaitCheck(entry, late, _) => late && Hopeful(entry)
    case WaitAbandon(entry, _) => Hopeful(entry)
    case WaitWon => true
    case WaitCancel => true
    case _ => false
  }

  /** With one consumer, a wait that found a stage with hope returns within two
      iterations of its deadline: it always can step, every one of its steps
      brings the return nearer, and no step of the producer moves it away. */
  lemma SoleWaitReturns(value: Resource, moves: seq<Move>, w: World, m: Move)
    requires Reaches(NewWorld(value, 1), moves, w)
    requires |w.consumers| == 1 && PastDeadline(w.consumers[0]) && Enabled(w, m)
    ensures StepsLeft(w) <= 5
    ensures Enabled(w, Go(0, true))
    ensures |Step(w, m).consumers| == 1
    ensures m.Produce? ==> StepsLeft(Step(w, m)) <= StepsLeft(w) && PastDeadline(Step(w, m).consumers[0])
    ensures !m.Produce? ==>
              && StepsLeft(Step(w, m)) < StepsLeft(w)
              && (Step(w, m).consumers[0].Idle? || PastDeadline(Step(w, m).consumers[0]))
    ensures Waiting(w.consumers[0]) ==> w.consumers[0].spins <= 1
  {
    NewInv(value, 1);
    SoleWaitRuns(NewWorld(value, 1), value, moves, w);
  }

  /** How often the consumer moves in a run. */
  function OwnSteps(moves: seq<Move>): nat {
    if moves == [] then 0 else (if moves[0].Go? then 1 else 0) + OwnSteps(moves[1..])
  }

  /** The sole consumer is idle somewhere along the run. */
  predicate ComesBack(w: World, moves: seq<Move>)
    decreases |moves|
  {
    || (|w.consumers| == 1 && w.consumers[0].Idle?)
    || (moves != [] && Enabled(w, moves[0]) && ComesBack(Step(w, moves[0]), moves[1..]))
  }

  /** So in every run that gives it five steps after its deadline it has come back. */
  lemma {:induction false} SoleWaitComesBack(value: Resource, before: seq<Move>, w: World, more: seq<Move>, end: World)
    requires Reaches(NewWorld(value, 1), before, w) && Reaches(w, more, end)
    requires |w.consumers| == 1 && PastDeadline(w.consumers[0]) && OwnSteps(more) >= StepsLeft(w)
    ensures StepsLeft(w) <= 5 && ComesBack(w, more)
    decreases |more|
  {
    hide Step;
    if more == [] {
      StepsRemain(w);
    } else {
      var m := more[0];
      SoleWaitReturns(value, before, w, m);
      NoCallYet(w, m);
      ReachesMore(NewWorld(value, 1), before, w, m);
      if PastDeadline(Step(w, m).consumers[0]) {
        SoleWaitComesBack(value, before + [m], Step(w, m), more[1..], end);
      }
    }
  }

  lemma StepsRemain(w: World)
    requires |w.consumers| == 1 && PastDeadline(w.consumers[0])
    ensures StepsLeft(w) > 0
  {
  }

  /** A consumer in the middle of a call begins no other. */
  lemma NoCallYet(w: World, m: Move)
    requires |w.consumers| == 1 && PastDeadline(w.consumers[0]) && Enabled(w, m)
    ensures m.Produce? || m.Go?
  {
  }

  lemma {:induction false} ReachesMore(w: World, moves: seq<Move>, mid: World, m: Move)
    requires Reaches(w, moves, mid) && Enabled(mid, m)
    ensures Reaches(w, moves + [m], Step(mid, m))
    decreases |moves|
  {
    hide Step;
    if moves == [] {
      assert moves + [m] == [m];
    } else {
      assert (moves + [m])[1..] == moves[1..] + [m];
      ReachesMore(Step(w, moves[0]), moves[1..], mid, m);
    }
  }

  lemma HopelessStep(w: World, m: Move, id: nat)
    requires Enabled(w, m) && id < |w.consumers| && Waiting(w.consumers[id]) && !Hopeful(w.stage)
    ensures |Step(w, m).consumers| == |w.consumers| && !Hopeful(Step(w, m).stage)
    ensures Waiting(Step(w, m).consumers[id]) && Step(w, m).consumers[id].entry == w.consumers[id].entry
  {
    if m.Produce? {
      assert Step(w, m).consumers == w.consumers;
    } else if m.id != id {
      assert Step(w, m).consumers[id] == w.consumers[id];
    }
  }

  /** With any number of consumers, a wait that finds any other stage never
      returns, whoever moves. */
  lemma {:induction false} HopelessWaitNeverReturns(w: World, moves: seq<Move>, end: World, id: nat)
    requires Reaches(w, moves, end)
    requires id < |w.consumers| && Waiting(w.consumers[id]) && !Hopeful(w.stage)
    ensures id < |end.consumers| && Waiting(end.consumers[id]) && !Hopeful(end.stage)
    ensures end.consumers[id].entry == w.consumers[id].entry
    decreases |moves|
  {
    hide Step;
    if moves != [] {
      HopelessStep(w, moves[0], id);
      HopelessWaitNeverReturns(Step(w, moves[0]), moves[1..], end, id);
    }
  }

  lemma EnteringStep(w: World, m: Move)
    requires Enabled(w, m) && |w.consumers| == 1 && !Hopeful(w.stage)
    requires w.consumers[0].WaitEntering? || (Waiting(w.consumers[0]) && !Hopeful(w.consumers[0].entry))
    ensures |Step(w, m).consumers| == 1 && !Hopeful(Step(w, m).stage)
    ensures var c := Step(w, m).consumers[0]; c.WaitEntering? || (Waiting(c) && !Hopeful(c.entry))
  {
  }

  lemma {:induction false} EnteringWithoutHope(w: World, more: seq<Move>, end: World)
    requires Reaches(w, more, end)
    requires |w.consumers| == 1 && !Hopeful(w.stage)
    requires w.consumers[0].WaitEntering? || (Waiting(w.consumers[0]) && !Hopeful(w.consumers[0].entry))
    ensures |end.consumers| == 1
    ensures end.consumers[0].WaitEntering? || (Waiting(end.consumers[0]) && !Hopeful(end.consumers[0].entry))
    decreases |more|
  {
    hide Step;
    if more != [] {
      EnteringStep(w, more[0]);
      EnteringWithoutHope(Step(w, more[0]), more[1..], end);
    }
  }

  /** Some run brings the sole consumer back. */
  ghost predicate CanReturn(w: World) {
    exists more, end :: Reaches(w, more, end) && |end.consumers| == 1 && end.consumers[0].Idle?
  }

  lemma ReturnsAfter(w: World, m: Move)
    requires Enabled(w, m) && CanReturn(Step(w, m))
    ensures CanReturn(w)
  {
    hide Step;
    var more, end :| Reaches(Step(w, m), more, end) && |end.consumers| == 1 && end.consumers[0].Idle?;
    assert ([m] + more)[1..] == more;
    assert Reaches(w, [m] + more, end);
  }

  lemma BackAlready(w: World)
    requires |w.consumers| == 1 && w.consumers[0].Idle?
    ensures CanReturn(w)
  {
    assert Reaches(w, [], w);
  }

  /** Holding the lock on a stage with hope, it can be led back. */
  lemma LoopReturns(w: World)
    requires |w.consumers| == 1 && w.consumers[0].WaitLoop? && Hopeful(w.stage)
    ensures CanReturn(w)
  {
    var m := Go(0, true);
    var w1 := Step(w, m);
    var w2 := Step(w1, m);
    if w.stage.Ready? {
      BackAlready(w2);
    } else {
      var w3 := Step(w2, m);
      BackAlready(Step(w3, m));
      ReturnsAfter(w3, m);
      ReturnsAfter(w2, m);
    }
    ReturnsAfter(w1, m);
    ReturnsAfter(w, m);
  }

  lemma HopefulReturns(w: World, value: Resource)
    requires Inv(w, value) && |w.consumers| == 1 && w.consumers[0].WaitEntering? && Hopeful(w.stage)
    ensures CanReturn(w)
  {
    if w.lock.Some? {
      assert w.lock == Some(ByProducer) by { SoleLock(w); }
      var w1 := Step(w, Produce(true));
      LoopReturns(Step(w1, Go(0, true)));
      ReturnsAfter(w1, Go(0, true));
      ReturnsAfter(w, Produce(true));
    } else {
      LoopReturns(Step(w, Go(0, true)));
      ReturnsAfter(w, Go(0, true));
    }
  }

  lemma SoleLock(w: World)
    requires LockRight(w) && |w.consumers| == 1 && w.consumers[0].WaitEntering? && w.lock.Some?
    ensures w.lock == Some(ByProducer)
  {
    assert !Locked(w.consumers[0]);
    assert forall owner: Owner :: owner.By? && owner.id == 0 ==> owner == By(0);
  }

  /** The exact condition: the sole consumer's wait can return if and only if it
      is entered while the result is being produced or is ready. */
  lemma SoleWaitNeedsHope(value: Resource, moves: seq<Move>, w: World)
    requires Reaches(NewWorld(value, 1), moves, w)
    requires |w.consumers| == 1 && w.consumers[0].WaitEntering?
    ensures CanReturn(w) <==> Hopeful(w.stage)
  {
    hide Inv;
    NewInv(value, 1);
    RunKeeps(NewWorld(value, 1), value, moves, w);
    if Hopeful(w.stage) {
      HopefulReturns(w, value);
    } else if CanReturn(w) {
      var more, end :| Reaches(w, more, end) && |end.consumers| == 1 && end.consumers[0].Idle?;
      EnteringWithoutHope(w, more, end);
    }
  }

  // ---- When a wait starves everybody -----------------------------------

  predicate SpinningLate(c: Consumer) {
    (c.WaitLoop? && c.late) || (c.WaitCheck? && c.late) || c.WaitAbandon?
  }

  /** The reaper's thread already has the resource in hand. */
  predicate InReapersHand(producer: Producer) {
    producer.ReapTook? || producer.ReapArmed?
  }

  /** The resource is still with the producer or in the cell. */
  predicate Unreceived(w: World) {
    Untouched(w) && !InReapersHand(w.producer)
  }

  lemma StarvesStep(w: World, value: Resource, m: Move, id: nat)
    requires Inv(w, value) && Enabled(w, m) && id < |w.consumers|
    requires !Hopeful(w.stage) && SpinningLate(w.consumers[id]) && Unreceived(w)
    ensures |Step(w, m).consumers| == |w.consumers| && SpinningLate(Step(w, m).consumers[id])
    ensures !Hopeful(Step(w, m).stage) && Unreceived(Step(w, m))
  {
    hide WinnerRight;
    assert w.lock == Some(By(id));
    if !m.Produce? && m.id != id {
      assert Step(w, m).consumers[id] == w.consumers[id];
      assert !Locked(w.consumers[m.id]);
    }
  }

  /** A wait on any other stage, once late, keeps the lock: whoever else there is,
      the resource is never handed over and never reaped. */
  lemma {:induction false} HopelessWaitStarves(w: World, value: Resource, moves: seq<Move>, end: World, id: nat)
    requires Inv(w, value) && Reaches(w, moves, end)
    requires id < |w.consumers| && !Hopeful(w.stage) && SpinningLate(w.consumers[id]) && Unreceived(w)
    ensures id < |end.consumers| && SpinningLate(end.consumers[id]) && Unreceived(end)
    decreases |moves|
  {
    hide Inv, Step;
    if moves != [] {
      StepKeeps(w, value, moves[0]);
      StarvesStep(w, value, moves[0], id);
      HopelessWaitStarves(Step(w, moves[0]), value, moves[1..], end, id);
    }
  }

  /** And exactly then: it starves everybody unless the resource had been received
      before or the reaper's thread had it in hand. */
  lemma StarvesExactly(value: Resource, consumers: nat, moves: seq<Move>, w: World, id: nat)
    requires Reaches(NewWorld(value, consumers), moves, w)
    requires id < |w.consumers| && !Hopeful(w.stage) && SpinningLate(w.consumers[id])
    ensures (forall more, end :: Reaches(w, more, end) ==> Untouched(end)) <==> Unreceived(w)
  {
    hide Inv;
    NewInv(value, consumers);
    RunKeeps(NewWorld(value, consumers), value, moves, w);
    if Unreceived(w) {
      forall more, end | Reaches(w, more, end) ensures Untouched(end) {
        HopelessWaitStarves(w, value, more, end, id);
      }
    } else {
      ReaperIsThere(w, value);
      var more, end := HandFinishes(w);
      ReachesTouched(w, more, end);
    }
  }

  lemma ReachesTouched(w: World, more: seq<Move>, end: World)
    requires Reaches(w, more, end) && !Untouched(end)
    ensures !(forall more, end :: Reaches(w, more, end) ==> Untouched(end))
  {
  }

  lemma ReaperIsThere(w: World, value: Resource)
    requires Inv(w, value)
    ensures w.producer.ReapTook? ==> w.reaper
  {
  }

  lemma HandFinishes(w: World) returns (more: seq<Move>, end: World)
    requires !Unreceived(w) && (w.producer.ReapTook? ==> w.reaper)
    ensures Reaches(w, more, end) && !Untouched(end)
  {
    hide Step;
    var m := Produce(true);
    if !Untouched(w) {
      more, end := [], w;
    } else if w.producer.ReapArmed? {
      ArmedFinishes(w);
      OneMove(w, m);
      more, end := [m], Step(w, m);
    } else {
      TookIsArmed(w);
      ArmedFinishes(Step(w, m));
      more, end := [m, m], Step(Step(w, m), m);
    }
  }

  lemma ArmedFinishes(w: World)
    requires w.producer.ReapArmed?
    ensures Enabled(w, Produce(true)) && !Untouched(Step(w, Produce(true)))
  {
  }

  lemma TookIsArmed(w: World)
    requires w.producer.ReapTook? && w.reaper
    ensures Enabled(w, Produce(true)) && Step(w, Produce(true)).producer.ReapArmed?
    ensures Reaches(w, [Produce(true), Produce(true)], Step(Step(w, Produce(true)), Produce(true)))
  {
    var m := Produce(true);
    var w1 := Step(w, m);
    ArmedFinishes(w1);
    OneMove(w1, m);
    assert [m, m][1..] == [m];
  }

  lemma OneMove(w: World, m: Move)
    requires Enabled(w, m)
    ensures Reaches(w, [m], Step(w, m))
  {
    hide Step, Enabled;
    assert [m][1..] == [];
    assert Reaches(Step(w, m), [], Step(w, m));
  }

  /** Such a wait is reachable: one thread abandons and then waits all the same. */
  function ToHopelessWait(): seq<Move> {
    [Begin(0, Abandon), Go(0, false), Go(0, false), Begin(0, Wait)]
  }

  /** Its wait goes on past the deadline. */
  function ToSpinning(): seq<Move> {
    ToHopelessWait() + [Go(0, false), Go(0, false), Go(0, true)]
  }

  function Entered(value: Resource): World {
    World(Abandoned, None, None, true, true, Owning(value), [WaitEntering], [], [], 1)
  }

  function Spinning(value: Resource): World {
    World(Abandoned, None, Some(By(0)), true, true, Owning(value), [WaitAbandon(Abandoned, 0)], [], [], 1)
  }

  lemma EnteredIsReached(value: Resource)
    ensures Reaches(NewWorld(value, 1), ToHopelessWait(), Entered(value))
  {
    var moves := ToHopelessWait();
    var w0 := NewWorld(value, 1);
    var w1 := Step(w0, moves[0]);
    var w2 := Step(w1, moves[1]);
    var w3 := Step(w2, moves[2]);
    assert w0.consumers == [Idle] && w1.consumers == [Abandoning];
    assert w2.consumers == [AbandonWon] && w3.consumers == [Idle];
    assert Step(w3, moves[3]) == Entered(value);
    Runs4(w0, w1, w2, w3, moves);
  }

  lemma Runs4(w0: World, w1: World, w2: World, w3: World, moves: seq<Move>)
    requires |moves| == 4
    requires Enabled(w0, moves[0]) && w1 == Step(w0, moves[0])
    requires Enabled(w1, moves[1]) && w2 == Step(w1, moves[1])
    requires Enabled(w2, moves[2]) && w3 == Step(w2, moves[2])
    requires Enabled(w3, moves[3])
    ensures Reaches(w0, moves, Step(w3, moves[3]))
  {
    hide Step;
    var w4 := Step(w3, moves[3]);
    assert Reaches(w4, moves[1..][1..][1..][1..], w4);
    assert Reaches(w3, moves[1..][1..][1..], w4);
    assert Reaches(w2, moves[1..][1..], w4);
    assert Reaches(w1, moves[1..], w4);
  }

  /** In that run the wait never returns, and from its deadline on the producer
      can never hand its resource over or have it reaped. */
  lemma AbandonThenWaitStarves(value: Resource)
    ensures Reaches(NewWorld(value, 1), ToHopelessWait(), Entered(value)) && !CanReturn(Entered(value))
    ensures Reaches(NewWorld(value, 1), ToSpinning(), Spinning(value))
    ensures forall more, end :: Reaches(Spinning(value), more, end) ==> Unreceived(end) && end.producer == Owning(value)
  {
    EnteredIsReached(value);
    SoleWaitNeedsHope(value, ToHopelessWait(), Entered(value));
    SpinningIsReached(value);
    forall more, end | Reaches(Spinning(value), more, end)
      ensures Unreceived(end) && end.producer == Owning(value)
    {
      NewInv(value, 1);
      RunKeeps(NewWorld(value, 1), value, ToSpinning(), Spinning(value));
      HopelessWaitStarves(Spinning(value), value, more, end, 0);
      ProducerIsStuck(Spinning(value), value, more, end);
    }
  }

  lemma EnteredSpins(value: Resource)
    ensures Enabled(Entered(value), Go(0, false))
    ensures var w1 := Step(Entered(value), Go(0, false));
            && Enabled(w1, Go(0, false))
            && var w2 := Step(w1, Go(0, false));
               Enabled(w2, Go(0, true)) && Step(w2, Go(0, true)) == Spinning(value)
  {
    var w1 := Step(Entered(value), Go(0, false));
    assert w1.consumers == [WaitLoop(Abandoned, false, 0)];
    assert Step(w1, Go(0, false)).consumers == [WaitCheck(Abandoned, false, 0)];
  }

  lemma SpinningIsReached(value: Resource)
    ensures Reaches(NewWorld(value, 1), ToSpinning(), Spinning(value))
  {
    hide Step, Enabled, Reaches, Entered, NewWorld;
    var start, w := NewWorld(value, 1), Entered(value);
    EnteredIsReached(value);
    EnteredSpins(value);
    var moves := ToHopelessWait();
    var w1 := Step(w, Go(0, false));
    var w2 := Step(w1, Go(0, false));
    ReachesMore(start, moves, w, Go(0, false));
    ReachesMore(start, moves + [Go(0, false)], w1, Go(0, false));
    ReachesMore(start, moves + [Go(0, false)] + [Go(0, false)], w2, Go(0, true));
    assert ToSpinning() == moves + [Go(0, false)] + [Go(0, false)] + [Go(0, true)];
  }

  /** A producer that has yet to write waits for the lock. */
  lemma {:induction false} ProducerIsStuck(w: World, value: Resource, moves: seq<Move>, end: World)
    requires Inv(w, value) && Reaches(w, moves, end) && w.producer == Owning(value)
    requires |w.consumers| == 1 && !Hopeful(w.stage) && SpinningLate(w.consumers[0])
    ensures end.producer == Owning(value)
    decreases |moves|
  {
    hide WinnerRight, StageRight, Step;
    if moves != [] {
      StepKeeps(w, value, moves[0]);
      StuckStep(w, value, moves[0]);
      ProducerIsStuck(Step(w, moves[0]), value, moves[1..], end);
    }
  }

  lemma StuckStep(w: World, value: Resource, m: Move)
    requires LockRight(w) && Enabled(w, m) && w.producer == Owning(value)
    requires |w.consumers| == 1 && !Hopeful(w.stage) && SpinningLate(w.consumers[0])
    ensures var w' := Step(w, m);
            && w'.producer == Owning(value) && |w'.consumers| == 1
            && !Hopeful(w'.stage) && SpinningLate(w'.consumers[0])
  {
    assert w.lock == Some(By(0));
  }
}
