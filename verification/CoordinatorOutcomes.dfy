/** What an invocation comes to, told by its request and the answers it was given:
    the first one that does not pass decides, and if all pass it succeeds. */
module CoordinatorOutcomes {
  import opened Common
  import opened Coordinator

  /** An answer, and whether the writer table had the target free then. */
  datatype Given = Given(answer: Answer, free: bool)

  predicate NeedsGrant(r: Request) {
    r.declared.Some? && r.declared.value.authorization.DestructiveAuthorization?
  }

  /** The awaits of an invocation, in order. */
  function Path(r: Request): seq<Site> {
    [Entry] + (if r.ordinary then [] else [Validating]) + [Resolving]
    + (if NeedsGrant(r) then [CheckingGrant] else []) + [Acquiring, LiveAcquired]
    + (if NeedsGrant(r) then [Consuming] else [])
    + [LiveConsumed, CapturingBefore, LiveCaptured, Claiming, Handling, LiveHandled, Observing, LiveObserved,
       CapturingAfter, LiveAfter]
  }

  /** What lets an invocation go on. */
  predicate Passes(r: Request, site: Site, g: Given) {
    match site
    case Entry => g.answer == Live(true, false) && (r.ordinary ==> r.contextTarget == r.target)
    case Validating => g.answer.Returned? && r.declared.Some?
    case Resolving =>
      r.declared.Some? && g.answer == Resolved(r.declared) && (NeedsGrant(r) ==> r.grant != "")
    case CheckingGrant => g.answer == Verdict(true)
    case Acquiring => g.free
    case LiveAcquired => g.answer == Live(true, false)
    case Consuming => g.answer == Verdict(true)
    case LiveConsumed => g.answer == Live(true, false)
    case CapturingBefore => g.answer.Returned?
    case LiveCaptured => g.answer == Live(true, false)
    case Claiming => true
    case Handling => g.answer.Returned?
    case LiveHandled => g.answer.Live? && g.answer.active
    case Observing => g.answer.Returned?
    case LiveObserved => g.answer.Live? && g.answer.active
    case CapturingAfter => g.answer.Returned?
    case LiveAfter => g.answer.Live? && g.answer.active
    case Done(_) => false
  }

  predicate BeforeHandoff(site: Site) {
    !Dispatched(site)
  }

  /** The error an answer that does not pass ends in. */
  function Blame(r: Request, site: Site, a: Answer): Failure {
    if !BeforeHandoff(site) then Coordinator(OutcomeUnknown)
    else if site.Entry? && r.ordinary && r.contextTarget != r.target then Coordinator(SessionExpired)
    else if a.Live? then Coordinator(if a.active then PreDispatchFailed else SessionExpired)
    else if site.Acquiring? then Coordinator(Conflict)
    else if a.Failed? && (site.CapturingBefore? || site.Consuming?) then Coordinator(PreDispatchFailed)
    else if a.Failed? && (site.Validating? || (site.Resolving? && a.failure.Coordinator?)) then a.failure
    else Coordinator(PolicyDenied)
  }

  // ---- One invocation --------------------------------------------------

  predicate AllPass(r: Request, own: seq<Given>, n: nat) {
    n <= |own| && n <= |Path(r)| && forall k :: 0 <= k < n ==> Passes(r, Path(r)[k], own[k])
  }

  /** Where the answers so far have brought the invocation. */
  predicate Fated(i: Invocation, own: seq<Given>) {
    var r, path := i.request, Path(i.request);
    && |own| <= |path|
    && match i.site
       case Done(Success) => |own| == |path| && AllPass(r, own, |own|)
       case Done(Threw(f)) =>
         && own != [] && AllPass(r, own, |own| - 1)
         && !Passes(r, path[|own| - 1], own[|own| - 1]) && f == Blame(r, path[|own| - 1], own[|own| - 1].answer)
       case site => |own| < |path| && AllPass(r, own, |own|) && site == path[|own|]
  }

  /** The awaits come one after the other as the source has them. */
  predicate Leads(r: Request, k: nat)
    requires k < |Path(r)|
  {
    var next := if k + 1 < |Path(r)| then Path(r)[k + 1] else Done(Success);
    match Path(r)[k]
    case Entry => next == if r.ordinary then Resolving else Validating
    case Validating => next == Resolving
    case Resolving => next == if NeedsGrant(r) then CheckingGrant else Acquiring
    case CheckingGrant => next == Acquiring
    case Acquiring => next == LiveAcquired
    case LiveAcquired => next == if NeedsGrant(r) then Consuming else LiveConsumed
    case Consuming => next == LiveConsumed
    case LiveConsumed => next == CapturingBefore
    case CapturingBefore => next == LiveCaptured
    case LiveCaptured => next == Claiming
    case Claiming => next == Handling
    case Handling => next == LiveHandled
    case LiveHandled => next == Observing
    case Observing => next == LiveObserved
    case LiveObserved => next == CapturingAfter
    case CapturingAfter => next == LiveAfter
    case LiveAfter => k + 1 == |Path(r)|
    case Done(_) => false
  }

  /** The await after this one. */
  lemma Follows(r: Request, k: nat)
    requires k < |Path(r)|
    ensures !Path(r)[k].Done? && Leads(r, k)
  {
    hide Path, Leads, NeedsGrant;
    if r.ordinary && NeedsGrant(r) {
      GrantedFollows(r, k);
    } else if r.ordinary {
      PlainFollows(r, k);
    } else if NeedsGrant(r) {
      ValidatedGrantedFollows(r, k);
    } else {
      ValidatedFollows(r, k);
    }
  }

  lemma GrantedFollows(r: Request, k: nat)
    requires k < |Path(r)| && r.ordinary && NeedsGrant(r)
    ensures !Path(r)[k].Done? && Leads(r, k)
  {
  }

  lemma PlainFollows(r: Request, k: nat)
    requires k < |Path(r)| && r.ordinary && !NeedsGrant(r)
    ensures !Path(r)[k].Done? && Leads(r, k)
  {
  }

  lemma ValidatedGrantedFollows(r: Request, k: nat)
    requires k < |Path(r)| && !r.ordinary && NeedsGrant(r)
    ensures !Path(r)[k].Done? && Leads(r, k)
  {
  }

  lemma ValidatedFollows(r: Request, k: nat)
    requires k < |Path(r)| && !r.ordinary && !NeedsGrant(r)
    ensures !Path(r)[k].Done? && Leads(r, k)
  {
  }

  /** One answer moves the invocation on exactly if it passes, and else ends it. */
  lemma OneAnswer(i: Invocation, k: nat, a: Answer, free: bool)
    requires Honest(i) && k < |Path(i.request)| && i.site == Path(i.request)[k] && Fits(i.site, a)
    ensures var r, g, i' := i.request, Given(a, free), Resume(i, a, free);
            && i'.request == r
            && i'.site == if !Passes(r, i.site, g) then Done(Threw(Blame(r, i.site, a)))
                          else if k + 1 == |Path(r)| then Done(Success)
                          else Path(r)[k + 1]
  {
    hide Path;
    Follows(i.request, k);
  }

  lemma ResumeFated(i: Invocation, own: seq<Given>, a: Answer, free: bool)
    requires Honest(i) && Fated(i, own) && Fits(i.site, a)
    ensures Fated(Resume(i, a, free), own + [Given(a, free)])
  {
    hide Honest, Passes, Blame, Path, Resume;
    OneAnswer(i, |own|, a, free);
    NeverDone(i.request, |own|);
    var more := own + [Given(a, free)];
    forall k | 0 <= k < |own| ensures more[k] == own[k] {
    }
    NextIsNoEnd(i.request, |own| + 1);
  }

  lemma NeverDone(r: Request, k: nat)
    requires k < |Path(r)|
    ensures !Path(r)[k].Done?
  {
  }

  lemma NextIsNoEnd(r: Request, k: nat)
    ensures k < |Path(r)| ==> !Path(r)[k].Done?
  {
  }

  // ---- Over runs -------------------------------------------------------

  /** What invocation `k` is given along the run. */
  function Own(w: World, moves: seq<Move>, k: nat): seq<Given>
    decreases |moves|
  {
    if moves == [] || !Enabled(w, moves[0]) then []
    else
      (if moves[0].id == k then [Given(moves[0].answer, w.invocations[k].request.target !in w.busy)] else [])
      + Own(Step(w, moves[0]), moves[1..], k)
  }

  lemma {:induction false} RunFated(w: World, moves: seq<Move>, end: World, k: nat, own: seq<Given>)
    requires Inv(w) && Reaches(w, moves, end) && k < |w.invocations| && Fated(w.invocations[k], own)
    ensures k < |end.invocations| && end.invocations[k].request == w.invocations[k].request
    ensures Fated(end.invocations[k], own + Own(w, moves, k))
    decreases |moves|
  {
    hide Exclusive, Honest, Resume, Fated, Fits;
    if moves == [] {
      assert own + [] == own;
    } else {
      var m := moves[0];
      var i := w.invocations[m.id];
      var free := i.request.target !in w.busy;
      StepExclusive(w, m);
      ResumeIsHonest(i, m.answer, free);
      ResumeShape(i, m.answer, free);
      var first := if m.id == k then [Given(m.answer, free)] else [];
      if m.id == k {
        ResumeFated(i, own, m.answer, free);
      } else {
        assert own + [] == own;
      }
      RunFated(Step(w, m), moves[1..], end, k, own + first);
      Assoc(own, first, Own(Step(w, m), moves[1..], k));
    }
  }

  lemma StartFated(r: Request)
    ensures Fated(Start(r), [])
  {
  }

  lemma Fates(requests: seq<Request>, moves: seq<Move>, w: World, k: nat)
    requires Reaches(StartAll(requests), moves, w) && k < |requests|
    ensures k < |w.invocations| && w.invocations[k].request == requests[k]
    ensures Fated(w.invocations[k], Own(StartAll(requests), moves, k))
  {
    hide Inv, Fated;
    StartInv(requests);
    StartFated(requests[k]);
    RunFated(StartAll(requests), moves, w, k, []);
    assert [] + Own(StartAll(requests), moves, k) == Own(StartAll(requests), moves, k);
  }

  /** Over every run: an invocation has succeeded exactly when it was given an answer
      at each of its awaits and every one passed -- each liveness answer active, and
      not cancelled before the hand-off; the policy the declared one; the grant
      checked and consumed where that is destructive; the target free; and no
      closure failing. */
  lemma SucceedsExactly(requests: seq<Request>, moves: seq<Move>, w: World, k: nat)
    requires Reaches(StartAll(requests), moves, w) && k < |requests|
    ensures k < |w.invocations|
    ensures var r, own := requests[k], Own(StartAll(requests), moves, k);
            w.invocations[k].site == Done(Success) <==>
              |own| == |Path(r)| && forall n :: 0 <= n < |own| ==> Passes(r, Path(r)[n], own[n])
  {
    hide Passes, Path, Blame, Own, Reaches;
    Fates(requests, moves, w, k);
    SiteIsNoEnd(w.invocations[k], Own(StartAll(requests), moves, k));
  }

  /** And it has failed exactly when the last answer it was given is the first that
      does not pass, with the error that answer is to blame for. */
  lemma FailsExactly(requests: seq<Request>, moves: seq<Move>, w: World, k: nat, f: Failure)
    requires Reaches(StartAll(requests), moves, w) && k < |requests|
    ensures k < |w.invocations|
    ensures var r, own := requests[k], Own(StartAll(requests), moves, k);
            w.invocations[k].site == Done(Threw(f)) <==>
              && 0 < |own| <= |Path(r)|
              && (forall n :: 0 <= n < |own| - 1 ==> Passes(r, Path(r)[n], own[n]))
              && var last := |own| - 1;
                 !Passes(r, Path(r)[last], own[last]) && f == Blame(r, Path(r)[last], own[last].answer)
  {
    hide Passes, Path, Blame, Own, Reaches;
    Fates(requests, moves, w, k);
    SiteIsNoEnd(w.invocations[k], Own(StartAll(requests), moves, k));
  }

  /** A path never names an end. */
  lemma SiteIsNoEnd(i: Invocation, own: seq<Given>)
    requires Fated(i, own)
    ensures i.site.Done? || |own| < |Path(i.request)|
    ensures i.site.Done? && i.site.outcome.Success? ==> |own| == |Path(i.request)|
  {
  }

  /** While it runs it waits where its answers have brought it. */
  lemma WaitsExactly(requests: seq<Request>, moves: seq<Move>, w: World, k: nat)
    requires Reaches(StartAll(requests), moves, w) && k < |requests|
    ensures k < |w.invocations|
    ensures var r, own := requests[k], Own(StartAll(requests), moves, k);
            !w.invocations[k].site.Done? ==>
              && |own| < |Path(r)| && w.invocations[k].site == Path(r)[|own|]
              && forall n :: 0 <= n < |own| ==> Passes(r, Path(r)[n], own[n])
  {
    hide Passes, Path, Blame, Own, Reaches;
    Fates(requests, moves, w, k);
  }

  // ---- It can succeed --------------------------------------------------

  function Good(r: Request, site: Site): Answer {
    match site
    case Resolving => Resolved(r.declared)
    case CheckingGrant => Verdict(true)
    case Consuming => Verdict(true)
    case Entry => Live(true, false)
    case LiveAcquired => Live(true, false)
    case LiveConsumed => Live(true, false)
    case LiveCaptured => Live(true, false)
    case LiveHandled => Live(true, false)
    case LiveObserved => Live(true, false)
    case LiveAfter => Live(true, false)
    case _ => Returned
  }

  /** A request that can be carried out. */
  predicate Sensible(r: Request) {
    && r.declared.Some? && (NeedsGrant(r) ==> r.grant != "")
    && (r.ordinary ==> r.contextTarget == r.target)
  }

  lemma GoodPasses(r: Request, k: nat, free: bool)
    requires Sensible(r) && k < |Path(r)| && (Path(r)[k].Acquiring? ==> free)
    ensures Passes(r, Path(r)[k], Given(Good(r, Path(r)[k]), free))
    ensures Fits(Path(r)[k], Good(r, Path(r)[k]))
  {
    hide Path;
    NeverDone(r, k);
  }

  function GoodMoves(r: Request, k: nat): seq<Move>
    requires k <= |Path(r)|
    decreases |Path(r)| - k
  {
    if k == |Path(r)| then [] else [Move(0, Good(r, Path(r)[k]))] + GoodMoves(r, k + 1)
  }

  /** One sensible invocation alone, waiting at the k-th await. */
  predicate Underway(w: World, r: Request, k: nat) {
    && Inv(w) && |w.invocations| == 1 && w.invocations[0].request == r && k <= |Path(r)|
    && w.invocations[0].site == (if k == |Path(r)| then Done(Success) else Path(r)[k])
    && w.busy == if Writing(w.invocations[0].site) then {r.target} else {}
  }

  lemma OneStep(w: World, r: Request, k: nat)
    requires Sensible(r) && Underway(w, r, k) && k < |Path(r)|
    ensures Enabled(w, Move(0, Good(r, Path(r)[k])))
    ensures Underway(Step(w, Move(0, Good(r, Path(r)[k]))), r, k + 1)
  {
    hide Passes, Path, Exclusive, Honest, Resume, Fits, Writing;
    AcquiringIsFree();
    var i, free := w.invocations[0], r.target !in w.busy;
    GoodPasses(r, k, free);
    var m := Move(0, Good(r, Path(r)[k]));
    OneAnswer(i, k, m.answer, free);
    StepExclusive(w, m);
    ResumeIsHonest(i, m.answer, free);
    ResumeShape(i, m.answer, free);
    DoneWritesNothing();
  }

  lemma AcquiringIsFree()
    ensures !Writing(Acquiring)
  {
  }

  lemma {:induction false} GoesThrough(w: World, r: Request, k: nat) returns (end: World)
    requires Sensible(r) && k <= |Path(r)| && Underway(w, r, k)
    ensures Reaches(w, GoodMoves(r, k), end) && Underway(end, r, |Path(r)|)
    decreases |Path(r)| - k
  {
    hide Path, Underway, Step, Enabled, Good;
    if k == |Path(r)| {
      end := w;
    } else {
      OneStep(w, r, k);
      var m := Move(0, Good(r, Path(r)[k]));
      end := GoesThrough(Step(w, m), r, k + 1);
      assert GoodMoves(r, k)[1..] == GoodMoves(r, k + 1);
    }
  }

  /** Every sensible request succeeds in some run, its handler run once and its
      grant consumed once if it needs one, and the target is free again. */
  lemma SensibleSucceeds(r: Request) returns (w: World)
    requires Sensible(r)
    ensures Reaches(StartAll([r]), GoodMoves(r, 0), w)
    ensures |w.invocations| == 1 && w.invocations[0].site == Done(Success) && w.busy == {}
    ensures w.invocations[0].started == 1 && (NeedsGrant(r) ==> w.invocations[0].consumed == 1)
  {
    hide Path, GoodMoves, Reaches, Inv;
    StartsUnderway(r);
    w := GoesThrough(StartAll([r]), r, 0);
    ErrorsAreHonest([r], GoodMoves(r, 0), w, 0);
    DoneWritesNothing();
    assert w.invocations[0].request == r;
  }

  lemma StartsUnderway(r: Request)
    ensures Underway(StartAll([r]), r, 0)
  {
    StartInv([r]);
    assert Path(r)[0] == Entry;
  }
}
