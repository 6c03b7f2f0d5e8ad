/** The bounded store of captured snapshots: a queue that gives up its oldest
    entries until both limits hold. */
module SnapshotStore {
  import opened Common

  const INT_MAX := 0x7FFF_FFFF_FFFF_FFFF

  datatype Scope = Scope(session: string, generation: u64)
  datatype Identity = Identity(token: string, generation: nat)
  datatype Snapshot = Snapshot(scope: Scope, identity: Identity, bytes: nat)
  datatype Limits = Limits(count: nat, bytes: nat)
  datatype Refusal = SnapshotExpired | ResourceExhausted

  /** Limits have to be positive for a store to exist. */
  predicate Positive(limits: Limits) {
    limits.count > 0 && 0 < limits.bytes <= INT_MAX
  }

  // ---- The queue -------------------------------------------------------

  function Total(queue: seq<Snapshot>): nat {
    if queue == [] then 0 else queue[0].bytes + Total(queue[1..])
  }

  predicate Within(queue: seq<Snapshot>, limits: Limits) {
    |queue| <= limits.count && Total(queue) <= limits.bytes
  }

  function Trim(queue: seq<Snapshot>, limits: Limits): seq<Snapshot>
    decreases |queue|
  {
    if queue == [] || Within(queue, limits) then queue else Trim(queue[1..], limits)
  }

  function Captured(queue: seq<Snapshot>, s: Snapshot, limits: Limits): seq<Snapshot> {
    Trim(queue + [s], limits)
  }

  function Outside(queue: seq<Snapshot>, scope: Scope): seq<Snapshot> {
    if queue == [] then []
    else (if queue[0].scope == scope then [] else [queue[0]]) + Outside(queue[1..], scope)
  }

  lemma {:induction false} TotalAppend(a: seq<Snapshot>, b: seq<Snapshot>)
    ensures Total(a + b) == Total(a) + Total(b)
    decreases |a|
  {
    if a == [] {
      assert a + b == b;
    } else {
      assert (a + b)[1..] == a[1..] + b;
      TotalAppend(a[1..], b);
    }
  }

  lemma TotalDrop(queue: seq<Snapshot>, k: nat)
    requires k <= |queue|
    ensures Total(queue[k..]) <= Total(queue)
  {
    TotalAppend(queue[..k], queue[k..]);
    assert queue[..k] + queue[k..] == queue;
  }

  /** Trimming keeps the longest end of the queue that is within the limits. */
  lemma {:induction false} TrimIsLongest(queue: seq<Snapshot>, limits: Limits)
    ensures var kept := Trim(queue, limits);
            && |kept| <= |queue| && kept == queue[|queue| - |kept|..]
            && Within(kept, limits)
            && (forall k :: 0 <= k <= |queue| && Within(queue[k..], limits) ==> |queue| - k <= |kept|)
    decreases |queue|
  {
    if queue == [] {
      assert queue[0..] == [];
    } else if Within(queue, limits) {
      assert queue[0..] == queue;
    } else {
      TrimIsLongest(queue[1..], limits);
      assert queue[0..] == queue;
      var kept := Trim(queue, limits);
      assert queue[1..][|queue| - 1 - |kept|..] == queue[|queue| - |kept|..];
      forall k | 0 <= k <= |queue| && Within(queue[k..], limits) ensures |queue| - k <= |kept| {
        if k > 0 {
          assert queue[k..] == queue[1..][k - 1..];
        }
      }
    }
  }

  /** A snapshot that fits on its own is always kept. */
  lemma CaptureKeepsNew(queue: seq<Snapshot>, s: Snapshot, limits: Limits)
    requires Positive(limits) && s.bytes <= limits.bytes
    ensures var kept := Captured(queue, s, limits); kept != [] && kept[|kept| - 1] == s
  {
    var all := queue + [s];
    TrimIsLongest(all, limits);
    assert all[|queue|..] == [s];
    assert Within(all[|queue|..], limits);
  }

  /** Trimming at every capture is the same as trimming once at the end. */
  lemma TrimTwice(a: seq<Snapshot>, b: seq<Snapshot>, limits: Limits)
    ensures Trim(Trim(a, limits) + b, limits) == Trim(a + b, limits)
    decreases |a|
  {
    if a == [] || Within(a, limits) {
    } else {
      TotalAppend(a, b);
      assert (a + b)[1..] == a[1..] + b;
      TrimTwice(a[1..], b, limits);
    }
  }

  function CapturedAll(queue: seq<Snapshot>, more: seq<Snapshot>, limits: Limits): seq<Snapshot>
    decreases |more|
  {
    if more == [] then queue else CapturedAll(Captured(queue, more[0], limits), more[1..], limits)
  }

  /** So after any captures the store holds the longest end of everything ever
      captured that fits, and a snapshot is still there exactly as long as it
      and what came after it are within the limits. */
  lemma {:induction false} StoreIsLongestEnd(queue: seq<Snapshot>, more: seq<Snapshot>, limits: Limits)
    requires Within(queue, limits)
    ensures CapturedAll(queue, more, limits) == Trim(queue + more, limits)
    decreases |more|
  {
    if more == [] {
      assert queue + [] == queue;
    } else {
      var next := Captured(queue, more[0], limits);
      TrimIsLongest(queue + [more[0]], limits);
      StoreIsLongestEnd(next, more[1..], limits);
      TrimTwice(queue + [more[0]], more[1..], limits);
      assert queue + more == (queue + [more[0]]) + more[1..];
    }
  }

  lemma SurvivesWhileItFits(all: seq<Snapshot>, k: nat, limits: Limits)
    requires k < |all|
    ensures k >= |all| - |Trim(all, limits)| <==> Within(all[k..], limits)
  {
    TrimIsLongest(all, limits);
    var from := |all| - |Trim(all, limits)|;
    if k >= from {
      assert all[k..] == all[from..][k - from..];
      TotalDrop(all[from..], k - from);
    }
  }

  // ---- Captures and invalidations together ------------------------------

  datatype Move = Capture(s: Snapshot) | Invalidate(scope: Scope)

  /** The store after any moves. */
  function Played(moves: seq<Move>, limits: Limits): seq<Snapshot>
    decreases |moves|
  {
    if moves == [] then []
    else
      var before := Played(moves[..|moves| - 1], limits);
      match moves[|moves| - 1]
      case Capture(s) => Captured(before, s, limits)
      case Invalidate(scope) => Outside(before, scope)
  }

  /** What a store without limits would hold. */
  function Unlimited(moves: seq<Move>): seq<Snapshot>
    decreases |moves|
  {
    if moves == [] then []
    else
      var before := Unlimited(moves[..|moves| - 1]);
      match moves[|moves| - 1]
      case Capture(s) => before + [s]
      case Invalidate(scope) => Outside(before, scope)
  }

  lemma {:induction false} OutsideAppend(a: seq<Snapshot>, b: seq<Snapshot>, scope: Scope)
    ensures Outside(a + b, scope) == Outside(a, scope) + Outside(b, scope)
    decreases |a|
  {
    if a == [] {
      assert a + b == b;
    } else {
      assert (a + b)[1..] == a[1..] + b;
      OutsideAppend(a[1..], b, scope);
    }
  }

  /** What earlier moves left comes before what later ones leave. */
  lemma {:induction false} UnlimitedSplits(a: seq<Move>, b: seq<Move>) returns (left: seq<Snapshot>)
    ensures Unlimited(a + b) == left + Unlimited(b) && |left| <= |Unlimited(a)|
    decreases |b|
  {
    if b == [] {
      left := Unlimited(a);
      assert a + b == a;
    } else {
      var front, last := b[..|b| - 1], b[|b| - 1];
      left := UnlimitedSplits(a, front);
      assert (a + b)[..|a + b| - 1] == a + front && (a + b)[|a + b| - 1] == last;
      match last {
        case Capture(s) =>
          Assoc(left, Unlimited(front), [s]);
        case Invalidate(scope) =>
          OutsideAppend(left, Unlimited(front), scope);
          OutsideTotals(left, scope);
          left := Outside(left, scope);
      }
    }
  }

  predicate EndOf(end: seq<Snapshot>, all: seq<Snapshot>) {
    |end| <= |all| && end == all[|all| - |end|..]
  }

  /** Dropping the first moves drops the first snapshots, at most one for each. */
  lemma LaterIsEnd(moves: seq<Move>, j: nat, k: nat)
    requires j <= k <= |moves|
    ensures EndOf(Unlimited(moves[k..]), Unlimited(moves[j..]))
    ensures k == j + 1 ==> |Unlimited(moves[j..])| <= |Unlimited(moves[k..])| + 1
  {
    assert moves[j..] == moves[j..k] + moves[k..];
    var left := UnlimitedSplits(moves[j..k], moves[k..]);
    if k == j + 1 {
      OneMove(moves[j..k]);
    }
  }

  lemma OneMove(moves: seq<Move>)
    requires |moves| == 1
    ensures |Unlimited(moves)| <= 1
  {
    assert moves[..0] == [];
  }

  /** The moves from the k-th on would at no time have left more than fits. */
  predicate FitsThroughout(moves: seq<Move>, k: nat, limits: Limits)
    requires k <= |moves|
  {
    forall m :: k <= m <= |moves| ==> Within(Unlimited(moves[k..m]), limits)
  }

  /** The first k from which no more than `n` snapshots are left. */
  lemma {:induction false} FirstOfLength(moves: seq<Move>, j: nat, n: nat) returns (k: nat)
    requires j <= |moves| && n <= |Unlimited(moves[j..])|
    ensures j <= k <= |moves| && |Unlimited(moves[k..])| == n
    ensures forall i :: j <= i < k ==> |Unlimited(moves[i..])| > n
    decreases |moves| - j
  {
    if |Unlimited(moves[j..])| == n {
      k := j;
    } else {
      assert moves[|moves|..] == [];
      LaterIsEnd(moves, j, j + 1);
      k := FirstOfLength(moves, j + 1, n);
    }
  }

  lemma EndIsWithin(end: seq<Snapshot>, all: seq<Snapshot>, limits: Limits)
    requires EndOf(end, all) && Within(all, limits)
    ensures Within(end, limits)
  {
    TotalDrop(all, |all| - |end|);
  }

  lemma EmptyIsWithin(moves: seq<Move>, limits: Limits)
    ensures moves == [] ==> Unlimited(moves) == [] && Within(Unlimited(moves), limits)
  {
  }

  lemma LastOfUnlimited(moves: seq<Move>, k: nat)
    requires k < |moves|
    ensures var before := Unlimited(moves[..|moves| - 1][k..]);
            Unlimited(moves[k..]) == match moves[|moves| - 1]
                                     case Capture(s) => before + [s]
                                     case Invalidate(scope) => Outside(before, scope)
  {
    assert moves[k..][..|moves| - 1 - k] == moves[..|moves| - 1][k..];
  }

  lemma OutsideIsWithin(queue: seq<Snapshot>, scope: Scope, limits: Limits)
    requires Within(queue, limits)
    ensures Within(Outside(queue, scope), limits)
  {
    OutsideTotals(queue, scope);
  }

  /** Up to the last move, less is left from a later point on. */
  lemma FitsBefore(moves: seq<Move>, start: nat, k: nat, m: nat, limits: Limits)
    requires start <= k <= m <= |moves| - 1 && FitsThroughout(moves[..|moves| - 1], start, limits)
    ensures Within(Unlimited(moves[k..m]), limits)
  {
    hide Within, Unlimited;
    var front := moves[..|moves| - 1];
    assert Within(Unlimited(front[start..m]), limits);
    assert front[start..m] == moves[..m][start..] && moves[k..m] == moves[..m][k..];
    LaterIsEnd(moves[..m], start, k);
    EndIsWithin(Unlimited(moves[k..m]), Unlimited(front[start..m]), limits);
  }

  lemma EarlierFails(moves: seq<Move>, j: nat, limits: Limits)
    requires j <= |moves| - 1 && !FitsThroughout(moves[..|moves| - 1], j, limits)
    ensures !FitsThroughout(moves, j, limits)
  {
    hide Within, Unlimited;
    var front := moves[..|moves| - 1];
    var m :| j <= m <= |front| && !Within(Unlimited(front[j..m]), limits);
    assert front[j..m] == moves[j..m];
    FailsAt(moves, j, m, limits);
  }

  lemma LongerEndIsTooMuch(all: seq<Snapshot>, end: seq<Snapshot>, limits: Limits)
    requires EndOf(end, all) && |end| > |Trim(all, limits)|
    ensures !Within(end, limits)
  {
    hide Within, Trim;
    TrimIsLongest(all, limits);
    var k := |all| - |end|;
    assert all[k..] == end;
  }

  lemma FailsAt(moves: seq<Move>, j: nat, m: nat, limits: Limits)
    requires j <= m <= |moves| && !Within(Unlimited(moves[j..m]), limits)
    ensures !FitsThroughout(moves, j, limits)
  {
    hide Within, Unlimited;
  }

  lemma LongerFails(moves: seq<Move>, start: nat, j: nat, limits: Limits)
    requires start <= j <= |moves| && |Unlimited(moves[j..])| > |Trim(Unlimited(moves[start..]), limits)|
    ensures !FitsThroughout(moves, j, limits)
  {
    hide Within, Unlimited, Trim, EndOf, FitsThroughout;
    LaterIsEnd(moves, start, j);
    LongerEndIsTooMuch(Unlimited(moves[start..]), Unlimited(moves[j..]), limits);
    assert moves[j..|moves|] == moves[j..];
    FailsAt(moves, j, |moves|, limits);
  }

  /** The last move is a capture: where the trimmed store starts. */
  lemma CaptureMovesOn(moves: seq<Move>, start: nat, limits: Limits) returns (k: nat)
    requires moves != [] && start <= |moves| - 1
    ensures start <= k <= |moves| && Trim(Unlimited(moves[start..]), limits) == Unlimited(moves[k..])
    ensures Within(Unlimited(moves[k..]), limits)
    ensures forall j :: start <= j < k ==> !FitsThroughout(moves, j, limits)
  {
    hide Within, Unlimited, Trim, FitsThroughout;
    var all := Unlimited(moves[start..]);
    TrimIsLongest(all, limits);
    k := FirstOfLength(moves, start, |Trim(all, limits)|);
    LaterIsEnd(moves, start, k);
    forall j | start <= j < k ensures !FitsThroughout(moves, j, limits) {
      LongerFails(moves, start, j, limits);
    }
  }

  /** A store that has seen captures and invalidations in any order holds what an
      unlimited one would hold of the moves from some point on: the first point
      from which that would have been within the limits all along. */
  lemma {:induction false} PlayedIsLongestEnd(moves: seq<Move>, limits: Limits) returns (k: nat)
    ensures k <= |moves| && Played(moves, limits) == Unlimited(moves[k..])
    ensures FitsThroughout(moves, k, limits)
    ensures forall j :: 0 <= j < k ==> !FitsThroughout(moves, j, limits)
    decreases |moves|
  {
    hide Within, Unlimited, Trim;
    if moves == [] {
      k := 0;
      EmptyIsWithin(moves[k..], limits);
    } else {
      var n := |moves| - 1;
      var front := moves[..n];
      var start := PlayedIsLongestEnd(front, limits);
      LastOfUnlimited(moves, start);
      match moves[n] {
        case Invalidate(scope) =>
          k := start;
          assert front[start..n] == front[start..];
          OutsideIsWithin(Unlimited(front[start..]), scope, limits);
        case Capture(s) =>
          k := CaptureMovesOn(moves, start, limits);
      }
      assert moves[k..|moves|] == moves[k..];
      forall m | k <= m <= n ensures Within(Unlimited(moves[k..m]), limits) {
        FitsBefore(moves, start, k, m, limits);
      }
      forall j | 0 <= j < start ensures !FitsThroughout(moves, j, limits) {
        EarlierFails(moves, j, limits);
      }
    }
  }

  // ---- The actor's state -----------------------------------------------

  function Order(queue: seq<Snapshot>): seq<Identity> {
    seq(|queue|, i requires 0 <= i < |queue| => queue[i].identity)
  }

  /** The dictionary, the order and the byte total say the same as the queue. */
  ghost predicate Mirrors(snapshots: map<Identity, Snapshot>, order: seq<Identity>, total: nat, queue: seq<Snapshot>) {
    && order == Order(queue)
    && (forall i, j :: 0 <= i < j < |order| ==> order[i] != order[j])
    && (forall id :: id in snapshots <==> id in order)
    && (forall i :: 0 <= i < |queue| ==> snapshots[order[i]] == queue[i])
    && total == Total(queue)
  }

  lemma {:induction false} OutsideMembers(queue: seq<Snapshot>, scope: Scope)
    ensures forall s :: s in Outside(queue, scope) <==> s in queue && s.scope != scope
    decreases |queue|
  {
    if queue != [] {
      OutsideMembers(queue[1..], scope);
      assert forall s :: s in queue <==> s == queue[0] || s in queue[1..];
    }
  }

  /** Invalidating keeps the order of what stays and frees what goes. */
  lemma {:induction false} OutsideTotals(queue: seq<Snapshot>, scope: Scope)
    ensures Total(Outside(queue, scope)) + Total(Inside(queue, scope)) == Total(queue)
    ensures |Outside(queue, scope)| <= |queue|
    decreases |queue|
  {
    if queue != [] {
      OutsideTotals(queue[1..], scope);
      var head := if queue[0].scope == scope then [] else [queue[0]];
      TotalAppend(head, Outside(queue[1..], scope));
      var headIn := if queue[0].scope == scope then [queue[0]] else [];
      TotalAppend(headIn, Inside(queue[1..], scope));
    }
  }

  function Inside(queue: seq<Snapshot>, scope: Scope): seq<Snapshot> {
    if queue == [] then []
    else (if queue[0].scope == scope then [queue[0]] else []) + Inside(queue[1..], scope)
  }

  class Store {
    const limits: Limits
    var nextGeneration: nat
    var snapshots: map<Identity, Snapshot>
    var order: seq<Identity>
    var total: nat
    ghost var queue: seq<Snapshot>

    ghost predicate Valid()
      reads this
    {
      && Positive(limits)
      && Mirrors(snapshots, order, total, queue)
      && Within(queue, limits)
      && (forall s :: s in queue ==> s.identity.generation < nextGeneration)
    }

    constructor (limits: Limits)
      requires Positive(limits)
      ensures Valid() && queue == [] && this.limits == limits
    {
      this.limits := limits;
      nextGeneration, snapshots, order, total, queue := 1, map[], [], 0, [];
    }

    /** The commit of a validated capture whose encoding has the given size. */
    method Commit(scope: Scope, token: string, bytes: nat) returns (r: Result<Snapshot, Refusal>)
      requires Valid() && bytes <= INT_MAX
      modifies this
      ensures Valid()
      ensures r.Err? <==> bytes > limits.bytes || Total(old(queue)) + bytes > INT_MAX
      ensures r.Err? ==> r.error == ResourceExhausted && queue == old(queue)
      ensures r.Ok? ==>
                && r.value == Snapshot(scope, Identity(token, old(nextGeneration)), bytes)
                && queue == Captured(old(queue), r.value, limits)
                && r.value in queue
      ensures nextGeneration == old(nextGeneration) + if r.Ok? then 1 else 0
    {
      hide Mirrors, Trim, Within, Total;
      SameLength(snapshots, order, total, queue);
      if bytes > limits.bytes {
        return Err(ResourceExhausted);
      }
      if total + bytes > INT_MAX {
        return Err(ResourceExhausted);
      }
      var identity := Identity(token, nextGeneration);
      var snapshot := Snapshot(scope, identity, bytes);
      CaptureKeepsNew(queue, snapshot, limits);
      Added(snapshots, order, total, queue, snapshot);
      ghost var all := queue + [snapshot];
      snapshots := snapshots[identity := snapshot];
      order := order + [identity];
      total := total + bytes;
      queue := all;
      Evict();
      TrimmedMembers(all);
      nextGeneration := nextGeneration + 1;
      r := Ok(snapshot);
    }

    lemma TrimmedMembers(all: seq<Snapshot>)
      ensures forall s :: s in Trim(all, limits) ==> s in all
      ensures Within(Trim(all, limits), limits)
    {
      TrimIsLongest(all, limits);
    }

    /** Gives up the oldest entries until both limits hold. */
    method Evict()
      requires Mirrors(snapshots, order, total, queue)
      modifies this`snapshots, this`order, this`total, this`queue
      ensures Mirrors(snapshots, order, total, queue)
      ensures queue == Trim(old(queue), limits)
    {
      hide Mirrors;
      SameLength(snapshots, order, total, queue);
      while |order| > limits.count || total > limits.bytes
        invariant Mirrors(snapshots, order, total, queue)
        invariant |order| == |queue| && total == Total(queue)
        invariant Trim(queue, limits) == Trim(old(queue), limits)
        decreases |order|
      {
        var evicted := order[0];
        Removed(snapshots, order, total, queue);
        order := order[1..];
        if evicted in snapshots {
          total := total - snapshots[evicted].bytes;
          snapshots := snapshots - {evicted};
        }
        queue := queue[1..];
        SameLength(snapshots, order, total, queue);
      }
    }

    method Resolve(identity: Identity, scope: Scope) returns (r: Result<Snapshot, Refusal>)
      requires Valid()
      ensures match r
              case Ok(s) => s in queue && s.identity == identity && s.scope == scope
              case Err(e) =>
                e == SnapshotExpired && forall s :: s in queue && s.identity == identity ==> s.scope != scope
    {
      if identity !in snapshots || snapshots[identity].scope != scope {
        Lookup(snapshots, order, total, queue, identity);
        return Err(SnapshotExpired);
      }
      Lookup(snapshots, order, total, queue, identity);
      r := Ok(snapshots[identity]);
    }

    method Invalidate(scope: Scope)
      requires Valid()
      modifies this
      ensures Valid() && queue == Outside(old(queue), scope)
      ensures nextGeneration == old(nextGeneration)
    {
      hide Mirrors, Inside, Outside, Total;
      var gone := InvalidatedBytes(snapshots, order, total, queue, scope);
      var kept := KeptOrder(snapshots, order, total, queue, scope);
      OutsideTotals(queue, scope);
      OutsideMembers(queue, scope);
      SameLength(snapshots, order, total, queue);
      Filtered(snapshots, order, total, queue, scope);
      snapshots := map id | id in snapshots && snapshots[id].scope != scope :: snapshots[id];
      order := kept;
      total := total - gone;
      queue := Outside(queue, scope);
    }
  }

  /** The bytes of all snapshots of a scope. */
  method InvalidatedBytes(snapshots: map<Identity, Snapshot>, order: seq<Identity>, ghost total: nat,
                          ghost queue: seq<Snapshot>, scope: Scope) returns (gone: nat)
    requires Mirrors(snapshots, order, total, queue)
    ensures gone == Total(Inside(queue, scope))
  {
    gone := 0;
    assert queue[0..] == queue;
    for i := 0 to |order|
      invariant gone + Total(Inside(queue[i..], scope)) == Total(Inside(queue, scope))
    {
      assert queue[i..][0] == queue[i] && queue[i..][1..] == queue[i + 1..];
      TotalAppend(if queue[i].scope == scope then [queue[i]] else [], Inside(queue[i + 1..], scope));
      if snapshots[order[i]].scope == scope {
        assert Total([queue[i]]) == queue[i].bytes;
        gone := gone + snapshots[order[i]].bytes;
      }
    }
  }

  /** The identities whose snapshots stay, in order. */
  method KeptOrder(snapshots: map<Identity, Snapshot>, order: seq<Identity>, ghost total: nat,
                   ghost queue: seq<Snapshot>, scope: Scope) returns (kept: seq<Identity>)
    requires Mirrors(snapshots, order, total, queue)
    ensures kept == Order(Outside(queue, scope))
  {
    kept := [];
    assert queue[0..] == queue;
    for i := 0 to |order|
      invariant kept + Order(Outside(queue[i..], scope)) == Order(Outside(queue, scope))
    {
      assert queue[i..][0] == queue[i] && queue[i..][1..] == queue[i + 1..];
      if snapshots[order[i]].scope != scope {
        OrderCons(queue[i], Outside(queue[i + 1..], scope));
        Assoc(kept, [order[i]], Order(Outside(queue[i + 1..], scope)));
        kept := kept + [order[i]];
      } else {
        assert [] + Outside(queue[i + 1..], scope) == Outside(queue[i + 1..], scope);
      }
    }
    assert kept + [] == kept;
  }

  lemma OrderCons(s: Snapshot, queue: seq<Snapshot>)
    ensures Order([s] + queue) == [s.identity] + Order(queue)
  {
  }

  lemma SameLength(snapshots: map<Identity, Snapshot>, order: seq<Identity>, total: nat, queue: seq<Snapshot>)
    requires Mirrors(snapshots, order, total, queue)
    ensures |order| == |queue| && total == Total(queue)
  {
  }

  lemma Added(snapshots: map<Identity, Snapshot>, order: seq<Identity>, total: nat, queue: seq<Snapshot>, s: Snapshot)
    requires Mirrors(snapshots, order, total, queue)
    requires forall q :: q in queue ==> q.identity != s.identity
    ensures Mirrors(snapshots[s.identity := s], order + [s.identity], total + s.bytes, queue + [s])
  {
    TotalAppend(queue, [s]);
    assert Order(queue + [s]) == Order(queue) + [s.identity];
    forall i | 0 <= i < |order| ensures order[i] != s.identity {
      assert queue[i] in queue;
    }
  }

  lemma Removed(snapshots: map<Identity, Snapshot>, order: seq<Identity>, total: nat, queue: seq<Snapshot>)
    requires Mirrors(snapshots, order, total, queue) && queue != []
    ensures order[0] in snapshots && snapshots[order[0]] == queue[0] && total >= queue[0].bytes
    ensures Mirrors(snapshots - {order[0]}, order[1..], total - queue[0].bytes, queue[1..])
  {
    assert Order(queue[1..]) == Order(queue)[1..];
    assert order[0] in order;
    forall id ensures id in snapshots - {order[0]} <==> id in order[1..] {
      if id in order && id != order[0] {
        var k :| 0 <= k < |order| && order[k] == id;
        assert order[1..][k - 1] == id;
      }
    }
  }

  lemma Lookup(snapshots: map<Identity, Snapshot>, order: seq<Identity>, total: nat, queue: seq<Snapshot>, id: Identity)
    requires Mirrors(snapshots, order, total, queue)
    ensures id in snapshots ==> snapshots[id] in queue && snapshots[id].identity == id
    ensures forall s :: s in queue && s.identity == id ==> id in snapshots && snapshots[id] == s
  {
    if id in snapshots {
      var k :| 0 <= k < |order| && order[k] == id;
      assert snapshots[order[k]] == queue[k];
    }
    forall s | s in queue && s.identity == id ensures id in snapshots && snapshots[id] == s {
      var k :| 0 <= k < |queue| && queue[k] == s;
      assert order[k] == id;
    }
  }

  /** No identity twice. */
  predicate Unlike(queue: seq<Snapshot>) {
    forall i, j :: 0 <= i < j < |queue| ==> queue[i].identity != queue[j].identity
  }

  lemma {:induction false} OutsideOrder(queue: seq<Snapshot>, scope: Scope)
    requires Unlike(queue)
    ensures Unlike(Outside(queue, scope))
    decreases |queue|
  {
    if queue != [] {
      OutsideOrder(queue[1..], scope);
      OutsideMembers(queue[1..], scope);
      var kept := Outside(queue, scope);
      if queue[0].scope != scope {
        forall j | 0 < j < |kept| ensures kept[j].identity != kept[0].identity {
          assert kept[j] == Outside(queue[1..], scope)[j - 1];
          assert kept[j] in queue[1..];
        }
      } else {
        assert kept == Outside(queue[1..], scope);
      }
    }
  }

  lemma Filtered(snapshots: map<Identity, Snapshot>, order: seq<Identity>, total: nat, queue: seq<Snapshot>,
                 scope: Scope)
    requires Mirrors(snapshots, order, total, queue)
    ensures var kept := Outside(queue, scope);
            Mirrors(map id | id in snapshots && snapshots[id].scope != scope :: snapshots[id],
                    Order(kept), Total(kept), kept)
  {
    hide Outside, Total, Mirrors, Unlike;
    var kept := Outside(queue, scope);
    IdentitiesDiffer(snapshots, order, total, queue);
    OutsideOrder(queue, scope);
    OutsideMembers(queue, scope);
    forall s | s in kept ensures Kept(snapshots, s, scope) {
      Lookup(snapshots, order, total, queue, s.identity);
    }
    forall id | id in snapshots ensures Stays(snapshots, id, kept, scope) {
      Lookup(snapshots, order, total, queue, id);
    }
    KeptMirrors(snapshots, kept, scope);
  }

  predicate Kept(snapshots: map<Identity, Snapshot>, s: Snapshot, scope: Scope) {
    s.identity in snapshots && snapshots[s.identity] == s && s.scope != scope
  }

  predicate Stays(snapshots: map<Identity, Snapshot>, id: Identity, kept: seq<Snapshot>, scope: Scope)
    requires id in snapshots
  {
    snapshots[id].scope != scope ==> snapshots[id] in kept && snapshots[id].identity == id
  }

  lemma IdentitiesDiffer(snapshots: map<Identity, Snapshot>, order: seq<Identity>, total: nat, queue: seq<Snapshot>)
    requires Mirrors(snapshots, order, total, queue)
    ensures Unlike(queue)
  {
    hide Total;
    forall i, j | 0 <= i < j < |queue| ensures queue[i].identity != queue[j].identity {
      assert order[i] != order[j];
    }
  }

  lemma KeptMirrors(snapshots: map<Identity, Snapshot>, kept: seq<Snapshot>, scope: Scope)
    requires Unlike(kept)
    requires forall s :: s in kept ==> Kept(snapshots, s, scope)
    requires forall id :: id in snapshots ==> Stays(snapshots, id, kept, scope)
    ensures Mirrors(map id | id in snapshots && snapshots[id].scope != scope :: snapshots[id],
                    Order(kept), Total(kept), kept)
  {
    hide Total;
    forall i | 0 <= i < |kept| ensures kept[i].identity in snapshots && snapshots[kept[i].identity] == kept[i] {
      assert kept[i] in kept && Kept(snapshots, kept[i], scope);
    }
    forall id | id in Order(kept) ensures id in snapshots && snapshots[id].scope != scope {
      var k :| 0 <= k < |kept| && Order(kept)[k] == id;
      assert kept[k] in kept && Kept(snapshots, kept[k], scope);
    }
    forall id | id in snapshots && snapshots[id].scope != scope ensures id in Order(kept) {
      assert Stays(snapshots, id, kept, scope);
      var k :| 0 <= k < |kept| && kept[k] == snapshots[id];
      assert Order(kept)[k] == id;
    }
  }
}
