/** The owner of target mutations: any number of concurrent invocations, each
    suspended at every await, sharing one table of busy targets.  What the
    session, the catalog, the policy, the evidence port and the handler answer
    at an await is chosen freely. */
module Coordinator {
  import opened Common

  type Target = string

  datatype Authorization = NoAuthorization | DestructiveAuthorization
  datatype RetrySafety = NoAutomaticRetry | RetryWithProofOnly
  datatype Policy = Policy(authorization: Authorization, retrySafety: RetrySafety)

  datatype CoordinatorError = PolicyDenied | Conflict | OutcomeUnknown | SessionExpired | PreDispatchFailed
  datatype Failure = Coordinator(error: CoordinatorError) | Other
  datatype Outcome = Success | Threw(failure: Failure)

  /** One invocation's input; `contextTarget` matters for ordinary mutations only. */
  datatype Request = Request(
    target: Target, ordinary: bool, contextTarget: Target, declared: Option<Policy>, grant: string)

  /** The await an invocation is suspended at. */
  datatype Site =
    | Entry | Validating | Resolving | CheckingGrant | Acquiring
    | LiveAcquired | Consuming | LiveConsumed | CapturingBefore | LiveCaptured | Claiming
    | Handling | LiveHandled | Observing | LiveObserved | CapturingAfter | LiveAfter
    | Done(outcome: Outcome)

  /** `started` and `consumed` count what has happened: handler runs and grants. */
  datatype Invocation = Invocation(
    request: Request, site: Site, effective: Option<Policy>, claim: Claim, started: nat, consumed: nat)

  /** A dispatch claim hands its handler off at most once. */
  datatype Claim = Unclaimed | HandedOff

  datatype Answer =
    | Live(active: bool, cancelled: bool)
    | Resolved(policy: Option<Policy>)
    | Verdict(granted: bool)
    | Returned
    | Failed(failure: Failure)

  /** What may come back at each await. */
  predicate Fits(site: Site, a: Answer) {
    match site
    case Entry => a.Live?
    case Validating => a.Returned? || a.Failed?
    case Resolving => a.Resolved? || a.Failed?
    case CheckingGrant => a.Verdict? || a.Failed?
    case Acquiring => a.Returned?
    case LiveAcquired => a.Live?
    case Consuming => a.Verdict? || a.Failed?
    case LiveConsumed => a.Live?
    case CapturingBefore => a.Returned? || a.Failed?
    case LiveCaptured => a.Live?
    case Claiming => a.Returned?
    case Handling => a.Returned? || a.Failed?
    case LiveHandled => a.Live?
    case Observing => a.Returned? || a.Failed?
    case LiveObserved => a.Live?
    case CapturingAfter => a.Returned? || a.Failed?
    case LiveAfter => a.Live?
    case Done(_) => false
  }

  function Throw(i: Invocation, error: CoordinatorError): Invocation {
    i.(site := Done(Threw(Coordinator(error))))
  }

  /** `ensureLive`: an ended session first, then cancellation. */
  function EnsureLive(i: Invocation, a: Answer, next: Site): Invocation
    requires a.Live?
  {
    if !a.active then Throw(i, SessionExpired)
    else if a.cancelled then Throw(i, PreDispatchFailed)
    else i.(site := next)
  }

  /** Past the hand-off every failure leaves the outcome unknown. */
  function StillActive(i: Invocation, a: Answer, next: Site): Invocation
    requires a.Live?
  {
    if a.active then i.(site := next) else Throw(i, OutcomeUnknown)
  }

  function Destructive(i: Invocation): bool {
    i.effective.Some? && i.effective.value.authorization.DestructiveAuthorization?
  }

  /** The invocation after its await came back.  `free` tells whether the writer
      table had its target free. */
  function Resume(i: Invocation, a: Answer, free: bool): Invocation
    requires Fits(i.site, a)
  {
    match i.site
    case Entry =>
      if i.request.ordinary && i.request.contextTarget != i.request.target then Throw(i, SessionExpired)
      else EnsureLive(i, a, if i.request.ordinary then Resolving else Validating)
    case Validating =>
      if a.Failed? then i.(site := Done(Threw(a.failure)))
      else if i.request.declared.None? then Throw(i, PolicyDenied)
      else i.(site := Resolving)
    case Resolving => Resolution(i, a)
    case CheckingGrant => if a.Failed? || !a.granted then Throw(i, PolicyDenied) else i.(site := Acquiring)
    case Acquiring => if free then i.(site := LiveAcquired) else Throw(i, Conflict)
    case LiveAcquired => EnsureLive(i, a, if Destructive(i) then Consuming else LiveConsumed)
    case Consuming =>
      if a.Failed? then Throw(i, PreDispatchFailed)
      else if !a.granted then Throw(i, PolicyDenied)
      else i.(site := LiveConsumed, consumed := i.consumed + 1)
    case LiveConsumed => EnsureLive(i, a, CapturingBefore)
    case CapturingBefore => if a.Failed? then Throw(i, PreDispatchFailed) else i.(site := LiveCaptured)
    case LiveCaptured => EnsureLive(i, a, Claiming)
    case Claiming =>
      if i.claim.HandedOff? then Throw(i, OutcomeUnknown)
      else i.(site := Handling, claim := HandedOff, started := i.started + 1)
    case Handling => if a.Failed? then Throw(i, OutcomeUnknown) else i.(site := LiveHandled)
    case LiveHandled => StillActive(i, a, Observing)
    case Observing => if a.Failed? then Throw(i, OutcomeUnknown) else i.(site := LiveObserved)
    case LiveObserved => StillActive(i, a, CapturingAfter)
    case CapturingAfter => if a.Failed? then Throw(i, OutcomeUnknown) else i.(site := LiveAfter)
    case LiveAfter => StillActive(i, a, Done(Success))
  }

  /** The policy that comes back has to be the declared one; a coordinator error
      thrown by the resolver passes through, any other is a denial. */
  function Resolution(i: Invocation, a: Answer): Invocation
    requires a.Resolved? || a.Failed?
  {
    if a.Failed? then
      if a.failure.Coordinator? then i.(site := Done(Threw(a.failure))) else Throw(i, PolicyDenied)
    else if a.policy.None? || a.policy != i.request.declared then Throw(i, PolicyDenied)
    else
      var i1 := i.(effective := a.policy);
      if !Destructive(i1) then i1.(site := Acquiring)
      else if i.request.grant == "" then Throw(i1, PolicyDenied)
      else i1.(site := CheckingGrant)
  }

  /** The sites at which an invocation has the writer. */
  predicate Writing(site: Site) {
    match site
    case Entry => false
    case Validating => false
    case Resolving => false
    case CheckingGrant => false
    case Acquiring => false
    case Done(_) => false
    case _ => true
  }

  datatype World = World(busy: set<Target>, invocations: seq<Invocation>)

  datatype Move = Move(id: nat, answer: Answer)

  predicate Enabled(w: World, m: Move) {
    m.id < |w.invocations| && Fits(w.invocations[m.id].site, m.answer)
  }

  /** `tryAcquire` on the way in, the deferred release on every way out. */
  function Step(w: World, m: Move): World
    requires Enabled(w, m)
  {
    var i := w.invocations[m.id];
    var i' := Resume(i, m.answer, i.request.target !in w.busy);
    var busy :=
      if i.site.Acquiring? && i'.site.LiveAcquired? then w.busy + {i.request.target}
      else if Writing(i.site) && i'.site.Done? then w.busy - {i.request.target}
      else w.busy;
    World(busy, w.invocations[m.id := i'])
  }

  function Start(request: Request): Invocation {
    Invocation(request, Entry, None, Unclaimed, 0, 0)
  }

  function StartAll(requests: seq<Request>): World {
    World({}, seq(|requests|, k requires 0 <= k < |requests| => Start(requests[k])))
  }

  // ---- What one invocation keeps ---------------------------------------

  predicate Dispatched(site: Site) {
    match site
    case Handling => true
    case LiveHandled => true
    case Observing => true
    case LiveObserved => true
    case CapturingAfter => true
    case LiveAfter => true
    case _ => false
  }

  predicate Authorized(i: Invocation) {
    && i.effective.Some? && i.effective == i.request.declared
    && (Destructive(i) ==> i.consumed == 1 && i.request.grant != "")
  }

  predicate Honest(i: Invocation) {
    && i.started <= 1 && i.consumed <= 1
    && (i.started == 1 <==> i.claim.HandedOff?)
    && (Writing(i.site) || i.site.Acquiring? || i.site.CheckingGrant? ==>
          && i.effective.Some? && i.effective == i.request.declared
          && (Destructive(i) ==> i.request.grant != ""))
    && (i.started == 1 ==> Authorized(i))
    && (match i.site
        case Done(Success) => i.started == 1
        case Done(Threw(f)) => i.started == 1 ==> f == Coordinator(OutcomeUnknown)
        case site => i.started == 1 <==> Dispatched(site))
    && (i.consumed == 1 ==> i.site.Done? || Past(i.site))
    && (Past(i.site) && Destructive(i) ==> i.consumed == 1)
  }

  /** Past the consumption of the grant. */
  predicate Past(site: Site) {
    Writing(site) && !site.LiveAcquired? && !site.Consuming?
  }

  lemma ResumeIsHonest(i: Invocation, a: Answer, free: bool)
    requires Honest(i) && Fits(i.site, a)
    ensures Honest(Resume(i, a, free))
  {
  }

  // ---- What all of them keep -------------------------------------------

  predicate Writes(w: World, k: nat) {
    k < |w.invocations| && Writing(w.invocations[k].site)
  }

  predicate Exclusive(w: World) {
    && (forall k :: 0 <= k < |w.invocations| && Writes(w, k) ==> w.invocations[k].request.target in w.busy)
    && (forall j, k :: 0 <= j < k < |w.invocations| && Writes(w, j) && Writes(w, k) ==>
          w.invocations[j].request.target != w.invocations[k].request.target)
    && (forall t :: t in w.busy ==>
          exists k :: 0 <= k < |w.invocations| && Writes(w, k) && w.invocations[k].request.target == t)
  }

  predicate Inv(w: World) {
    && Exclusive(w)
    && (forall k :: 0 <= k < |w.invocations| ==> Honest(w.invocations[k]))
  }

  lemma ResumeShape(i: Invocation, a: Answer, free: bool)
    requires Fits(i.site, a)
    ensures var i' := Resume(i, a, free);
            && i'.request == i.request
            && (Writing(i.site) ==> Writing(i'.site) || i'.site.Done?)
            && (!Writing(i.site) && Writing(i'.site) ==> i.site.Acquiring? && i'.site.LiveAcquired? && free)
  {
  }

  lemma StepExclusive(w: World, m: Move)
    requires Exclusive(w) && Enabled(w, m)
    ensures Exclusive(Step(w, m))
  {
    hide Resume, Fits, Writing;
    var i, w' := w.invocations[m.id], Step(w, m);
    ResumeShape(i, m.answer, i.request.target !in w.busy);
    DoneWritesNothing();
    forall k | 0 <= k < |w.invocations| && k != m.id ensures Writes(w', k) == Writes(w, k) {
    }
    forall t | t in w'.busy
      ensures exists k :: 0 <= k < |w'.invocations| && Writes(w', k) && w'.invocations[k].request.target == t
    {
      if t == i.request.target && Writes(w', m.id) {
      } else {
        var k :| 0 <= k < |w.invocations| && Writes(w, k) && w.invocations[k].request.target == t;
        assert k != m.id;
        assert Writes(w', k);
      }
    }
  }

  lemma DoneWritesNothing()
    ensures forall site: Site :: site.Done? || site.Acquiring? ==> !Writing(site)
    ensures Writing(LiveAcquired)
  {
  }

  ghost predicate Reaches(w: World, moves: seq<Move>, end: World)
    decreases |moves|
  {
    if moves == [] then end == w
    else Enabled(w, moves[0]) && Reaches(Step(w, moves[0]), moves[1..], end)
  }

  lemma {:induction false} RunKeeps(w: World, moves: seq<Move>, end: World)
    requires Inv(w) && Reaches(w, moves, end)
    ensures Inv(end)
    decreases |moves|
  {
    hide Exclusive, Honest, Resume;
    if moves != [] {
      var m := moves[0];
      StepExclusive(w, m);
      var i := w.invocations[m.id];
      ResumeIsHonest(i, m.answer, i.request.target !in w.busy);
      RunKeeps(Step(w, m), moves[1..], end);
    }
  }

  lemma StartInv(requests: seq<Request>)
    ensures Inv(StartAll(requests))
  {
  }

  /** However the invocations interleave: per target at most one is past
      `tryAcquire`, and a target is busy exactly while one is. */
  lemma OneWriterPerTarget(requests: seq<Request>, moves: seq<Move>, w: World)
    requires Reaches(StartAll(requests), moves, w)
    ensures forall j, k :: 0 <= j < k < |w.invocations| && Writes(w, j) && Writes(w, k) ==>
              w.invocations[j].request.target != w.invocations[k].request.target
    ensures forall t :: t in w.busy <==>
              exists k :: 0 <= k < |w.invocations| && Writes(w, k) && w.invocations[k].request.target == t
    ensures (forall k :: 0 <= k < |w.invocations| ==> w.invocations[k].site.Done?) ==> w.busy == {}
  {
    hide Honest;
    StartInv(requests);
    RunKeeps(StartAll(requests), moves, w);
  }

  /** The error classification can be relied upon: a handler runs at most once;
      any error but outcome-unknown means it never ran; once it ran there is
      success or outcome-unknown; it only ran under the declared policy and,
      where that is destructive, after one grant was consumed. */
  lemma ErrorsAreHonest(requests: seq<Request>, moves: seq<Move>, w: World, k: nat)
    requires Reaches(StartAll(requests), moves, w) && k < |w.invocations|
    ensures var i := w.invocations[k];
            && i.started <= 1
            && (i.site.Done? && i.site.outcome.Threw? && i.site.outcome.failure != Coordinator(OutcomeUnknown) ==>
                i.started == 0)
            && (i.site.Done? && i.started == 1 ==>
                  i.site.outcome == Success || i.site.outcome == Threw(Coordinator(OutcomeUnknown)))
            && (i.site == Done(Success) ==> i.started == 1)
            && (i.started == 1 ==> i.effective.Some? && i.effective == i.request.declared)
            && (i.started == 1 && Destructive(i) ==> i.consumed == 1)
            && i.consumed <= 1
  {
    hide Exclusive;
    StartInv(requests);
    RunKeeps(StartAll(requests), moves, w);
  }

  /** The invocation ended in outcome-unknown although its handler never ran. */
  predicate ClaimsWithoutRunning(i: Invocation) {
    i.site == Done(Threw(Coordinator(OutcomeUnknown))) && i.started == 0
  }

  /** An answer by which a closure of the app throws outcome-unknown itself: the
      validation of an invocation or the resolution of its policy fails with it. */
  predicate ThrowsUnknown(i: Invocation, a: Answer) {
    (i.site.Validating? || i.site.Resolving?) && a == Failed(Coordinator(OutcomeUnknown))
  }

  /** Invocation `k` is given such an answer along the run. */
  predicate GivenUnknown(w: World, moves: seq<Move>, k: nat)
    decreases |moves|
  {
    && moves != [] && Enabled(w, moves[0])
    && (|| (moves[0].id == k && ThrowsUnknown(w.invocations[k], moves[0].answer))
        || GivenUnknown(Step(w, moves[0]), moves[1..], k))
  }

  lemma OneAnswerClaims(i: Invocation, a: Answer, free: bool)
    requires Honest(i) && Fits(i.site, a)
    ensures ClaimsWithoutRunning(Resume(i, a, free)) <==> ThrowsUnknown(i, a)
    ensures !ClaimsWithoutRunning(i)
  {
  }

  lemma {:induction false} RunClaims(w: World, moves: seq<Move>, end: World, k: nat)
    requires Inv(w) && Reaches(w, moves, end) && k < |w.invocations|
    ensures k < |end.invocations|
    ensures ClaimsWithoutRunning(end.invocations[k]) <==>
            ClaimsWithoutRunning(w.invocations[k]) || GivenUnknown(w, moves, k)
    decreases |moves|
  {
    hide Exclusive, Honest, Resume, Fits, ThrowsUnknown, ClaimsWithoutRunning;
    if moves != [] {
      var m := moves[0];
      var i := w.invocations[m.id];
      StepExclusive(w, m);
      ResumeIsHonest(i, m.answer, i.request.target !in w.busy);
      OneAnswerClaims(i, m.answer, i.request.target !in w.busy);
      RunClaims(Step(w, m), moves[1..], end, k);
    }
  }

  /** The converse has one exception, told by the answers of the run alone: an
      invocation ends in outcome-unknown without its handler having run if and only
      if its validation or its policy resolver threw that very error. */
  lemma UnknownMeansRan(requests: seq<Request>, moves: seq<Move>, w: World, k: nat)
    requires Reaches(StartAll(requests), moves, w) && k < |requests|
    ensures k < |w.invocations|
    ensures ClaimsWithoutRunning(w.invocations[k]) <==> GivenUnknown(StartAll(requests), moves, k)
  {
    hide Inv;
    StartInv(requests);
    RunClaims(StartAll(requests), moves, w, k);
  }

  /** So in an app whose closures never throw it, an invocation that ends in
      outcome-unknown has run its handler. */
  lemma NoneThrowsUnknown(requests: seq<Request>, moves: seq<Move>, w: World, k: nat)
    requires Reaches(StartAll(requests), moves, w) && k < |requests|
    requires forall n :: 0 <= n < |moves| ==> moves[n].answer != Failed(Coordinator(OutcomeUnknown))
    ensures k < |w.invocations|
    ensures w.invocations[k].site == Done(Threw(Coordinator(OutcomeUnknown))) ==> w.invocations[k].started == 1
  {
    UnknownMeansRan(requests, moves, w, k);
    ErrorsAreHonest(requests, moves, w, k);
    NeverGiven(StartAll(requests), moves, k);
  }

  lemma {:induction false} NeverGiven(w: World, moves: seq<Move>, k: nat)
    requires forall n :: 0 <= n < |moves| ==> moves[n].answer != Failed(Coordinator(OutcomeUnknown))
    ensures !GivenUnknown(w, moves, k)
    decreases |moves|
  {
    hide Step;
    if moves != [] && Enabled(w, moves[0]) {
      NeverGiven(Step(w, moves[0]), moves[1..], k);
    }
  }

  /** An ordinary mutation, which always declares a policy. */
  const ORDINARY: Request := Request("app", true, "app", Some(Policy(NoAuthorization, NoAutomaticRetry)), "")

  /** And a closure can: a policy resolver that throws it is passed through. */
  lemma ResolverCanClaimUnknown()
    ensures var moves := [Move(0, Live(true, false)), Move(0, Failed(Coordinator(OutcomeUnknown)))];
            exists w :: Reaches(StartAll([ORDINARY]), moves, w)
                        && |w.invocations| == 1 && w.invocations[0].started == 0
                        && w.invocations[0].site == Done(Threw(Coordinator(OutcomeUnknown)))
  {
    var w0 := StartAll([ORDINARY]);
    var m0, m1 := Move(0, Live(true, false)), Move(0, Failed(Coordinator(OutcomeUnknown)));
    var w1 := Step(w0, m0);
    var w2 := Step(w1, m1);
    assert Reaches(w2, [], w2);
    assert [m1][1..] == [] && [m0, m1][1..] == [m1];
    assert Reaches(w1, [m1], w2);
    assert Reaches(w0, [m0, m1], w2);
  }

  /** Awaits an invocation can still pass through. */
  function Left(site: Site): nat {
    match site
    case Entry => 17
    case Validating => 16
    case Resolving => 15
    case CheckingGrant => 14
    case Acquiring => 13
    case LiveAcquired => 12
    case Consuming => 11
    case LiveConsumed => 10
    case CapturingBefore => 9
    case LiveCaptured => 8
    case Claiming => 7
    case Handling => 6
    case LiveHandled => 5
    case Observing => 4
    case LiveObserved => 3
    case CapturingAfter => 2
    case LiveAfter => 1
    case Done(_) => 0
  }

  /** Every answer brings its invocation nearer its end and leaves the others
      where they are, so a writer is held for at most twelve answers. */
  lemma EveryAnswerAdvances(w: World, m: Move)
    requires Enabled(w, m)
    ensures Left(Step(w, m).invocations[m.id].site) < Left(w.invocations[m.id].site)
    ensures Writes(w, m.id) ==> Left(w.invocations[m.id].site) <= 12
    ensures forall k :: 0 <= k < |w.invocations| && k != m.id ==> Step(w, m).invocations[k] == w.invocations[k]
    ensures Left(w.invocations[m.id].site) == 0 <==> w.invocations[m.id].site.Done?
  {
  }

  // ---- The two shared objects ------------------------------------------

  /** The process-wide table of targets with a writer; each call is one critical section. */
  class TargetWriterTable {
    var busy: set<Target>

    constructor ()
      ensures busy == {}
    {
      busy := {};
    }

    method TryAcquire(target: Target) returns (acquired: bool)
      modifies this
      ensures acquired == (target !in old(busy))
      ensures busy == old(busy) + {target}
    {
      if target in busy {
        assert busy == busy + {target};
        return false;
      }
      busy := busy + {target};
      acquired := true;
    }

    method Release(target: Target)
      modifies this
      ensures busy == old(busy) - {target}
    {
      busy := busy - {target};
    }
  }

  class DispatchClaim {
    var handedOff: bool

    constructor ()
      ensures !handedOff
    {
      handedOff := false;
    }

    /** Whether this call is the one that may run the handler. */
    method Handoff() returns (acquired: bool)
      modifies this
      ensures acquired == !old(handedOff) && handedOff
    {
      acquired := !handedOff;
      handedOff := true;
    }
  }
}
