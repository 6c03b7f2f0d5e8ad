/** The paged catalog listing: frozen item lists behind single-use cursors, and
    a page that shrinks item by item until its encoding fits. */
module Pagination {
  import opened Common

  type Token = string
  type Item = string

  datatype Context = Context(id: string, generation: u64)
  datatype Requested = Requested(maxItems: Option<nat>, maxBytes: Option<nat>)
  datatype Limits = Limits(responseBytes: nat, pageItems: nat)
  datatype Fault = InvalidParams | SessionExpired | CursorExpired | ResourceExhausted

  datatype Page = Page(
    items: seq<Item>, maxItems: nat, maxBytes: nat, cursor: Option<Token>, reasons: seq<string>)

  datatype Cursor = Cursor(context: Context, catalog: nat, requested: Requested, visible: seq<Item>, next: nat)

  /** The live sessions, the open cursors and the identity of the catalog. */
  datatype State = State(sessions: map<string, Context>, cursors: map<Token, Cursor>, catalog: nat)

  const LEAST_BYTES := 1024
  const MOST_BYTES := 64 * 1024 * 1024
  const MOST_ITEMS := 10_000

  /** The limits a runtime can be made with. */
  predicate Valid(limits: Limits) {
    1 <= limits.pageItems <= MOST_ITEMS && LEAST_BYTES <= limits.responseBytes <= MOST_BYTES
  }

  /** The limits a request can ask for. */
  predicate Sensible(requested: Requested) {
    && (requested.maxItems.Some? ==> 1 <= requested.maxItems.value <= MOST_ITEMS)
    && (requested.maxBytes.Some? ==> LEAST_BYTES <= requested.maxBytes.value <= MOST_BYTES)
  }

  function Min(a: nat, b: nat): nat {
    if a < b then a else b
  }

  function AppliedItems(limits: Limits, requested: Requested): nat {
    if requested.maxItems.Some? then Min(requested.maxItems.value, limits.pageItems) else limits.pageItems
  }

  function AppliedBytes(limits: Limits, requested: Requested): nat {
    if requested.maxBytes.Some? then Min(requested.maxBytes.value, limits.responseBytes) else limits.responseBytes
  }

  /** One listing from `start`; `size` is the encoded length of a page and
      `tokens` the cursor tokens drawn, one per attempt. */
  datatype Query = Query(
    visible: seq<Item>, start: nat, maxItems: nat, maxBytes: nat, responseBytes: nat,
    size: Page -> nat, tokens: nat -> Token)

  function Reasons(hasMore: bool, itemLimited: bool, byteLimited: bool): seq<string> {
    if !hasMore then []
    else if itemLimited || byteLimited then
      (if itemLimited then ["maxItems"] else []) + (if byteLimited then ["maxBytes"] else [])
    else ["maxBytes"]
  }

  function FirstEnd(q: Query): nat
    requires q.start <= |q.visible|
  {
    Min(q.start + q.maxItems, |q.visible|)
  }

  predicate InRange(q: Query, end: nat) {
    q.start <= |q.visible| && q.start <= end <= FirstEnd(q)
  }

  /** The page up to `end`, as it is drawn up after the longer ones were rejected. */
  function PageTo(q: Query, end: nat): Page
    requires InRange(q, end)
  {
    var hasMore := end < |q.visible|;
    Page(q.visible[q.start..end], q.maxItems, q.maxBytes,
         if hasMore then Some(q.tokens(FirstEnd(q) - end)) else None,
         Reasons(hasMore, end == q.start + q.maxItems, end < FirstEnd(q)))
  }

  function SizeTo(q: Query, end: nat): nat
    requires InRange(q, end)
  {
    q.size(PageTo(q, end))
  }

  datatype Chosen = Chosen(page: Page, end: nat)

  function Shrink(q: Query, end: nat): Result<Chosen, Fault>
    requires InRange(q, end)
    decreases end - q.start
  {
    if SizeTo(q, end) > q.responseBytes then Err(ResourceExhausted)
    else if SizeTo(q, end) <= q.maxBytes then Ok(Chosen(PageTo(q, end), end))
    else if end == q.start then Err(ResourceExhausted)
    else Shrink(q, end - 1)
  }

  datatype Answer = Answer(s: State, result: Result<Page, Fault>)

  /** What one call is given from outside. */
  datatype Host = Host(limits: Limits, size: Page -> nat, tokens: nat -> Token)

  function ListFrom(s: State, context: Context, requested: Requested, visible: seq<Item>, start: nat, host: Host):
      Answer {
    if start > |visible| then Answer(s, Err(CursorExpired))
    else
      var q := Query(visible, start, AppliedItems(host.limits, requested), AppliedBytes(host.limits, requested),
                     host.limits.responseBytes, host.size, host.tokens);
      match Shrink(q, FirstEnd(q))
      case Err(fault) => Answer(s, Err(fault))
      case Ok(chosen) =>
        if chosen.page.cursor.None? then Answer(s, Ok(chosen.page))
        else
          var cursor := Cursor(context, s.catalog, requested, visible, chosen.end);
          Answer(s.(cursors := s.cursors[chosen.page.cursor.value := cursor]), Ok(chosen.page))
  }

  predicate Active(s: State, context: Context) {
    context.id in s.sessions && s.sessions[context.id] == context
  }

  /** The first page, resumed once the visible items have been gathered; the
      session may have ended meanwhile. */
  function ListFirst(s: State, context: Context, requested: Requested, visible: seq<Item>, host: Host): Answer {
    if !Active(s, context) then Answer(s, Err(SessionExpired))
    else ListFrom(s, context, requested, visible, 0, host)
  }

  /** A later page; the cursor is used up even when the page then fails. */
  function ListNext(s: State, context: Context, token: Token, host: Host): Answer {
    if !Active(s, context) then Answer(s, Err(SessionExpired))
    else if token == "" || token !in s.cursors then Answer(s, Err(InvalidParams))
    else
      var cursor := s.cursors[token];
      if cursor.context != context then Answer(s, Err(InvalidParams))
      else if cursor.catalog != s.catalog then Answer(s, Err(CursorExpired))
      else
        ListFrom(s.(cursors := s.cursors - {token}), context, cursor.requested, cursor.visible, cursor.next, host)
  }

  // ---- What one page is ------------------------------------------------

  /** A page that was chosen is the longest acceptable start of what is left: it
      meets both limits, and every longer one tried was too long for the applied
      limit but not for the response limit. */
  predicate RightPage(q: Query, end: nat, chosen: Chosen)
    requires InRange(q, end)
  {
    && q.start <= chosen.end <= end
    && chosen.page == PageTo(q, chosen.end)
    && SizeTo(q, chosen.end) <= q.maxBytes && SizeTo(q, chosen.end) <= q.responseBytes
    && (forall e :: chosen.end < e <= end ==> q.maxBytes < SizeTo(q, e) <= q.responseBytes)
  }

  lemma {:induction false} ShrinkIsRight(q: Query, end: nat)
    requires InRange(q, end)
    ensures Shrink(q, end).Ok? ==> RightPage(q, end, Shrink(q, end).value)
    ensures Shrink(q, end).Err? ==> Shrink(q, end).error == ResourceExhausted
    decreases end - q.start
  {
    if q.maxBytes < SizeTo(q, end) <= q.responseBytes && end > q.start {
      ShrinkIsRight(q, end - 1);
    }
  }

  ghost predicate StopsAt(q: Query, end: nat, stop: nat)
    requires InRange(q, end)
  {
    && q.start <= stop <= end
    && SizeTo(q, stop) <= q.maxBytes
    && (forall e :: stop <= e <= end ==> SizeTo(q, e) <= q.responseBytes)
  }

  lemma {:induction false} ShrinkStops(q: Query, end: nat, stop: nat)
    requires InRange(q, end) && StopsAt(q, end, stop)
    ensures Shrink(q, end).Ok?
    decreases end - q.start
  {
    if SizeTo(q, end) > q.maxBytes {
      ShrinkStops(q, end - 1, stop);
    }
  }

  /** A listing succeeds exactly when some start of what is left fits the applied
      limit and no longer start, tried before it, exceeds the response limit.  So
      a page far too long fails the call where a slightly too long one shrinks. */
  lemma ListingSucceedsExactly(q: Query)
    requires q.start <= |q.visible|
    ensures Shrink(q, FirstEnd(q)).Ok? <==> exists stop :: StopsAt(q, FirstEnd(q), stop)
  {
    var end := FirstEnd(q);
    ShrinkIsRight(q, end);
    if Shrink(q, end).Ok? {
      assert StopsAt(q, end, Shrink(q, end).value.end);
    }
    if stop :| StopsAt(q, end, stop) {
      ShrinkStops(q, end, stop);
    }
  }

  /** With items left, a chosen page is empty exactly when no page of one item
      or more fits the applied limit. */
  lemma EmptyPageWhen(q: Query)
    requires q.start < |q.visible| && q.maxItems > 0 && Shrink(q, FirstEnd(q)).Ok?
    ensures Shrink(q, FirstEnd(q)).value.page.items == [] <==>
            forall e :: q.start < e <= FirstEnd(q) ==> SizeTo(q, e) > q.maxBytes
  {
    ShrinkIsRight(q, FirstEnd(q));
  }

  // ---- Runs ------------------------------------------------------------

  /** The state and every token ever handed out. */
  datatype World = World(s: State, issued: set<Token>)

  datatype Move =
    | Open(context: Context)
    | Invalidate
    | Reload(catalog: nat)
    | First(context: Context, requested: Requested, visible: seq<Item>, host: Host)
    | Next(context: Context, token: Token, host: Host)

  /** Tokens are drawn at random: no token is drawn twice. */
  ghost predicate FreshTokens(w: World, host: Host) {
    forall k: nat :: host.tokens(k) !in w.issued && host.tokens(k) != ""
  }

  /** New sessions have identifiers no live session has. */
  ghost predicate Enabled(w: World, m: Move) {
    match m
    case Open(context) => context.id !in w.s.sessions
    case First(_, _, _, host) => FreshTokens(w, host)
    case Next(_, _, host) => FreshTokens(w, host)
    case _ => true
  }

  function IssuedBy(a: Answer): set<Token> {
    if a.result.Ok? && a.result.value.cursor.Some? then {a.result.value.cursor.value} else {}
  }

  function Step(w: World, m: Move): World {
    match m
    case Open(context) => w.(s := w.s.(sessions := w.s.sessions[context.id := context]))
    case Invalidate => w.(s := w.s.(sessions := map[], cursors := map[]))
    case Reload(catalog) => w.(s := w.s.(catalog := catalog))
    case First(context, requested, visible, host) => After(w, ListFirst(w.s, context, requested, visible, host))
    case Next(context, token, host) => After(w, ListNext(w.s, context, token, host))
  }

  function After(w: World, a: Answer): World {
    World(a.s, w.issued + IssuedBy(a))
  }

  /** Every cursor belongs to a live session, has items left, and was issued. */
  predicate CursorsRight(w: World) {
    forall token :: token in w.s.cursors ==>
      var c := w.s.cursors[token];
      && Active(w.s, c.context) && c.next < |c.visible| && token in w.issued && token != ""
  }

  lemma ListFromKeeps(w: World, s: State, context: Context, requested: Requested, visible: seq<Item>, start: nat,
                      host: Host)
    requires CursorsRight(World(s, w.issued)) && Active(s, context) && FreshTokens(w, host)
    ensures CursorsRight(After(w, ListFrom(s, context, requested, visible, start, host)))
  {
    hide Shrink;
    if start <= |visible| {
      var q := Query(visible, start, AppliedItems(host.limits, requested), AppliedBytes(host.limits, requested),
                     host.limits.responseBytes, host.size, host.tokens);
      ShrinkIsRight(q, FirstEnd(q));
    }
  }

  lemma StepKeeps(w: World, m: Move)
    requires CursorsRight(w) && Enabled(w, m)
    ensures CursorsRight(Step(w, m))
  {
    hide ListFrom;
    match m {
      case First(context, requested, visible, host) =>
        if Active(w.s, context) {
          ListFromKeeps(w, w.s, context, requested, visible, 0, host);
        }
      case Next(context, token, host) =>
        if Active(w.s, context) && token in w.s.cursors {
          var c := w.s.cursors[token];
          ListFromKeeps(w, w.s.(cursors := w.s.cursors - {token}), context, c.requested, c.visible, c.next, host);
        }
      case _ =>
    }
  }

  /** Between its creation and its use a cursor never changes; used or dropped,
      it never comes back. */
  lemma StepIsFair(w: World, m: Move, token: Token)
    requires Enabled(w, m) && token in w.issued
    ensures token in Step(w, m).issued
    ensures token in Step(w, m).s.cursors ==> token in w.s.cursors && Step(w, m).s.cursors[token] == w.s.cursors[token]
    ensures m.Next? && m.token == token && Active(w.s, m.context) && token in w.s.cursors && token != ""
            && w.s.cursors[token].context == m.context && w.s.cursors[token].catalog == w.s.catalog ==>
              token !in Step(w, m).s.cursors
  {
    hide Shrink;
    if m.First? || m.Next? {
      TokensAreNew(w, m);
    }
  }

  lemma TokensAreNew(w: World, m: Move)
    requires Enabled(w, m) && (m.First? || m.Next?)
    ensures var a := if m.First? then ListFirst(w.s, m.context, m.requested, m.visible, m.host)
                     else ListNext(w.s, m.context, m.token, m.host);
            forall t :: t in IssuedBy(a) ==> t !in w.issued
  {
    hide Shrink;
    var (requested, visible, start) :=
      if m.First? then (m.requested, m.visible, 0)
      else if m.token in w.s.cursors
      then (w.s.cursors[m.token].requested, w.s.cursors[m.token].visible, w.s.cursors[m.token].next)
      else (Requested(None, None), [], 0);
    if start <= |visible| {
      var q := Query(visible, start, AppliedItems(m.host.limits, requested), AppliedBytes(m.host.limits, requested),
                     m.host.limits.responseBytes, m.host.size, m.host.tokens);
      ShrinkIsRight(q, FirstEnd(q));
    }
  }

  ghost predicate Reaches(w: World, moves: seq<Move>, end: World)
    decreases |moves|
  {
    if moves == [] then end == w
    else Enabled(w, moves[0]) && Reaches(Step(w, moves[0]), moves[1..], end)
  }

  lemma {:induction false} RunIsFair(w: World, moves: seq<Move>, end: World, token: Token)
    requires Reaches(w, moves, end) && token in w.issued && CursorsRight(w)
    ensures token in end.issued && CursorsRight(end)
    ensures token in end.s.cursors ==> token in w.s.cursors && end.s.cursors[token] == w.s.cursors[token]
    decreases |moves|
  {
    hide Step, CursorsRight;
    if moves != [] {
      StepKeeps(w, moves[0]);
      StepIsFair(w, moves[0], token);
      RunIsFair(Step(w, moves[0]), moves[1..], end, token);
    }
  }

  /** One later page of a chain: whatever else happens in between, then the
      cursor is presented. */
  datatype Link = Link(between: seq<Move>, context: Context, host: Host)

  ghost predicate Follows(w: World, token: Token, links: seq<Link>, pages: seq<Page>)
    decreases |links|
  {
    if links == [] then pages == []
    else
      exists w1 :: Reaches(w, links[0].between, w1) && FollowsFrom(w1, token, links, pages)
  }

  /** The page comes, and the chain goes on from its cursor or ends without one. */
  ghost predicate FollowsFrom(w1: World, token: Token, links: seq<Link>, pages: seq<Page>)
    requires links != []
    decreases |links|, 0
  {
    var m := Next(links[0].context, token, links[0].host);
    var a := ListNext(w1.s, links[0].context, token, links[0].host);
    && Enabled(w1, m) && a.result.Ok?
    && pages != [] && pages[0] == a.result.value
    && (if pages[0].cursor.None? then |links| == 1 && |pages| == 1
        else Follows(Step(w1, m), pages[0].cursor.value, links[1..], pages[1..]))
  }

  function ItemsOf(pages: seq<Page>): seq<Item> {
    if pages == [] then [] else pages[0].items + ItemsOf(pages[1..])
  }

  /** What a cursor answered with. */
  lemma NextAnswers(w: World, context: Context, token: Token, host: Host)
    requires CursorsRight(w) && FreshTokens(w, host)
    requires ListNext(w.s, context, token, host).result.Ok?
    ensures token in w.s.cursors
    ensures var c := w.s.cursors[token];
            var page := ListNext(w.s, context, token, host).result.value;
            var w' := Step(w, Next(context, token, host));
            && c.next + |page.items| <= |c.visible| && page.items == c.visible[c.next..c.next + |page.items|]
            && |page.items| <= AppliedItems(host.limits, c.requested)
            && host.size(page) <= AppliedBytes(host.limits, c.requested) && host.size(page) <= host.limits.responseBytes
            && (page.cursor.None? <==> c.next + |page.items| == |c.visible|)
            && (page.cursor.Some? ==>
                  var t := page.cursor.value;
                  && t in w'.s.cursors && t in w'.issued
                  && w'.s.cursors[t] == Cursor(context, w.s.catalog, c.requested, c.visible, c.next + |page.items|))
  {
    hide Shrink;
    var c := w.s.cursors[token];
    var q := Query(c.visible, c.next, AppliedItems(host.limits, c.requested), AppliedBytes(host.limits, c.requested),
                   host.limits.responseBytes, host.size, host.tokens);
    ShrinkIsRight(q, FirstEnd(q));
  }

  /** The pages are consecutive pieces of the list from `from` on, up to its end
      exactly when the last of them has no cursor. */
  predicate Covers(all: seq<Item>, from: nat, pages: seq<Page>) {
    && from + |ItemsOf(pages)| <= |all|
    && ItemsOf(pages) == all[from..from + |ItemsOf(pages)|]
    && (pages != [] ==> (pages[|pages| - 1].cursor.None? <==> from + |ItemsOf(pages)| == |all|))
  }

  /** One page and, if it has a cursor, those after it. */
  lemma CoversOn(all: seq<Item>, from: nat, pages: seq<Page>)
    requires pages != [] && from + |pages[0].items| <= |all|
    requires pages[0].items == all[from..from + |pages[0].items|]
    requires pages[0].cursor.None? <==> from + |pages[0].items| == |all|
    requires if pages[0].cursor.None? then |pages| == 1 else Covers(all, from + |pages[0].items|, pages[1..])
    ensures Covers(all, from, pages)
  {
    var rest := pages[1..];
    if rest == [] {
      assert ItemsOf(pages) == pages[0].items + [] == pages[0].items;
    } else {
      assert pages[|pages| - 1] == rest[|rest| - 1];
      Pieces(all, from, pages[0].items, ItemsOf(rest));
    }
  }

  lemma Pieces(all: seq<Item>, from: nat, a: seq<Item>, b: seq<Item>)
    requires from + |a| + |b| <= |all|
    requires a == all[from..from + |a|] && b == all[from + |a|..from + |a| + |b|]
    ensures a + b == all[from..from + |a + b|]
  {
  }

  /** Along a chain of successful calls, with anything else in between, the pages
      are consecutive pieces of the frozen list, all of it once no cursor is left. */
  lemma {:induction false} ChainConserves(w: World, token: Token, links: seq<Link>, pages: seq<Page>)
    requires CursorsRight(w) && token in w.s.cursors && Follows(w, token, links, pages)
    ensures Covers(w.s.cursors[token].visible, w.s.cursors[token].next, pages)
    decreases |links|
  {
    hide Step, ListNext, CursorsRight, Covers;
    CursorHasMore(w, token);
    if links == [] {
      NoPages(w.s.cursors[token].visible, w.s.cursors[token].next);
    } else {
      var w1 :| Reaches(w, links[0].between, w1) && FollowsFrom(w1, token, links, pages);
      hide Reaches;
      IssuedIs(w, token);
      RunIsFair(w, links[0].between, w1, token);
      var context, host := links[0].context, links[0].host;
      NextAnswers(w1, context, token, host);
      if pages[0].cursor.Some? {
        var m := Next(context, token, host);
        StepKeeps(w1, m);
        ChainConserves(Step(w1, m), pages[0].cursor.value, links[1..], pages[1..]);
      }
      CoversOn(w.s.cursors[token].visible, w.s.cursors[token].next, pages);
    }
  }

  lemma NoPages(all: seq<Item>, from: nat)
    requires from <= |all|
    ensures Covers(all, from, [])
  {
  }

  lemma CursorHasMore(w: World, token: Token)
    requires CursorsRight(w) && token in w.s.cursors
    ensures w.s.cursors[token].next < |w.s.cursors[token].visible|
  {
  }

  lemma IssuedIs(w: World, token: Token)
    requires CursorsRight(w) && token in w.s.cursors
    ensures token in w.issued
  {
  }

  /** What the first page is. */
  lemma FirstAnswers(w: World, context: Context, requested: Requested, visible: seq<Item>, host: Host)
    requires FreshTokens(w, host) && ListFirst(w.s, context, requested, visible, host).result.Ok?
    ensures var a := ListFirst(w.s, context, requested, visible, host);
            var page := a.result.value;
            && |page.items| <= |visible| && page.items == visible[..|page.items|]
            && (page.cursor.None? <==> |page.items| == |visible|)
            && (page.cursor.Some? ==>
                  && page.cursor.value in a.s.cursors
                  && a.s.cursors[page.cursor.value].visible == visible
                  && a.s.cursors[page.cursor.value].next == |page.items|)
  {
    hide Shrink;
    var q := Query(visible, 0, AppliedItems(host.limits, requested), AppliedBytes(host.limits, requested),
                   host.limits.responseBytes, host.size, host.tokens);
    ShrinkIsRight(q, FirstEnd(q));
  }

  /** The whole listing: the first page and every later one. */
  lemma ListingConserves(w: World, context: Context, requested: Requested, visible: seq<Item>, host: Host,
                         links: seq<Link>, pages: seq<Page>)
    requires CursorsRight(w) && FreshTokens(w, host)
    requires var a := ListFirst(w.s, context, requested, visible, host);
             && a.result.Ok? && pages != [] && pages[0] == a.result.value
             && (if pages[0].cursor.None? then links == [] && |pages| == 1
                 else Follows(After(w, a), pages[0].cursor.value, links, pages[1..]))
    ensures ItemsOf(pages) <= visible
    ensures ItemsOf(pages) == visible <==> pages[|pages| - 1].cursor.None?
  {
    hide ListFirst, CursorsRight, Follows, Covers;
    FirstAnswers(w, context, requested, visible, host);
    if pages[0].cursor.Some? {
      StepKeeps(w, First(context, requested, visible, host));
      var a := ListFirst(w.s, context, requested, visible, host);
      ChainConserves(After(w, a), pages[0].cursor.value, links, pages[1..]);
    }
    CoversOn(visible, 0, pages);
    CoversFromStart(visible, pages);
  }

  lemma CoversFromStart(all: seq<Item>, pages: seq<Page>)
    requires Covers(all, 0, pages) && pages != []
    ensures ItemsOf(pages) <= all
    ensures ItemsOf(pages) == all <==> pages[|pages| - 1].cursor.None?
  {
  }

  /** A cursor's query. */
  function QueryOf(host: Host, c: Cursor, start: nat): Query {
    Query(c.visible, start, AppliedItems(host.limits, c.requested), AppliedBytes(host.limits, c.requested),
          host.limits.responseBytes, host.size, host.tokens)
  }

  /** Wherever the chain stands, a page of one item fits the applied limit. */
  ghost predicate OneItemFits(host: Host, c: Cursor) {
    forall start :: c.next <= start < |c.visible| ==>
      var q := QueryOf(host, c, start);
      InRange(q, start + 1) ==> SizeTo(q, start + 1) <= q.maxBytes
  }

  lemma NextBringsSome(w: World, context: Context, token: Token, host: Host)
    requires CursorsRight(w) && FreshTokens(w, host) && ListNext(w.s, context, token, host).result.Ok?
    requires Valid(host.limits) && token in w.s.cursors && Sensible(w.s.cursors[token].requested)
    requires OneItemFits(host, w.s.cursors[token])
    ensures ListNext(w.s, context, token, host).result.value.items != []
  {
    hide Shrink;
    var c := w.s.cursors[token];
    var q := Query(c.visible, c.next, AppliedItems(host.limits, c.requested), AppliedBytes(host.limits, c.requested),
                   host.limits.responseBytes, host.size, host.tokens);
    assert q == QueryOf(host, c, c.next);
    assert c.next < |c.visible| && InRange(q, c.next + 1);
    assert SizeTo(q, c.next + 1) <= q.maxBytes;
    EmptyPageWhen(q);
  }

  lemma {:induction false} ChainEnds(w: World, token: Token, links: seq<Link>, pages: seq<Page>)
    requires CursorsRight(w) && token in w.s.cursors && Follows(w, token, links, pages)
    requires Sensible(w.s.cursors[token].requested)
    requires forall k :: 0 <= k < |links| ==>
             Valid(links[k].host.limits) && OneItemFits(links[k].host, w.s.cursors[token])
    ensures |pages| <= |w.s.cursors[token].visible| - w.s.cursors[token].next
    decreases |links|
  {
    hide Step, ListNext, CursorsRight, OneItemFits;
    CursorHasMore(w, token);
    if links != [] {
      var w1 :| Reaches(w, links[0].between, w1) && FollowsFrom(w1, token, links, pages);
      IssuedIs(w, token);
      RunIsFair(w, links[0].between, w1, token);
      var context, host := links[0].context, links[0].host;
      NextAnswers(w1, context, token, host);
      NextBringsSome(w1, context, token, host);
      if pages[0].cursor.Some? {
        var m := Next(context, token, host);
        StepKeeps(w1, m);
        var next := Step(w1, m).s.cursors[pages[0].cursor.value];
        forall k | 0 <= k < |links[1..]|
          ensures Valid(links[1..][k].host.limits) && OneItemFits(links[1..][k].host, next)
        {
          assert links[1..][k] == links[k + 1];
          FitsLater(links[k + 1].host, w.s.cursors[token], next);
        }
        ChainEnds(Step(w1, m), pages[0].cursor.value, links[1..], pages[1..]);
      }
    }
  }

  lemma FitsLater(host: Host, c: Cursor, later: Cursor)
    requires OneItemFits(host, c) && later.visible == c.visible && later.requested == c.requested &&
             c.next <= later.next
    ensures OneItemFits(host, later)
  {
    forall start | later.next <= start < |later.visible|
      ensures var q := QueryOf(host, later, start); InRange(q, start + 1) ==> SizeTo(q, start + 1) <= q.maxBytes
    {
      assert QueryOf(host, later, start) == QueryOf(host, c, start);
    }
  }

  /** What a call that brings a cursor is checked for before anything else. */
  predicate Admits(s: State, context: Context, token: Token) {
    && Active(s, context) && token != "" && token in s.cursors
    && s.cursors[token].context == context && s.cursors[token].catalog == s.catalog
  }

  /** A later page that fails keeps its cursor exactly when the call was refused
      by one of the checks before it; once admitted, it fails exactly when no
      start of the rest will do, and then the rest can only be had by starting over. */
  lemma FailedPageLosesCursor(w: World, context: Context, token: Token, host: Host)
    requires CursorsRight(w)
    ensures var a := ListNext(w.s, context, token, host);
            if Admits(w.s, context, token) then
              var c := w.s.cursors[token];
              var q := QueryOf(host, c, c.next);
              && token !in a.s.cursors - IssuedBy(a)
              && (a.result.Err? <==> forall stop :: !StopsAt(q, FirstEnd(q), stop))
              && (a.result.Err? ==>
                    a.result.error == ResourceExhausted && a.s == w.s.(cursors := w.s.cursors - {token}))
            else
              && a.result.Err? && a.result.error != ResourceExhausted && a.s == w.s
    ensures var a := ListNext(w.s, context, token, host);
            token in w.s.cursors && a.result.Err? ==> (token in a.s.cursors <==> !Admits(w.s, context, token))
  {
    hide Shrink, StopsAt;
    if Admits(w.s, context, token) {
      var c := w.s.cursors[token];
      var q := QueryOf(host, c, c.next);
      ListingSucceedsExactly(q);
      ShrinkIsRight(q, FirstEnd(q));
    }
  }

  // ---- Listings that go wrong ------------------------------------------

  const NARROW: Limits := Limits(2048, 3)
  const ATMOST: Requested := Requested(None, Some(1024))
  const CONTEXT: Context := Context("s", 1)

  function Listener(): State {
    State(map["s" := CONTEXT], map[], 0)
  }

  /** A host under which every item takes the same room beside the 300 bytes of
      an empty page. */
  function Evenly(each: nat): Host {
    Host(NARROW, (page: Page) => 300 + each * |page.items|, (k: nat) => "one")
  }

  /** Of the same three items under the same limits, a slightly too long page
      shrinks to one item, and a far too long one fails although one item fits. */
  lemma FarTooLongFails()
    ensures Valid(NARROW) && Sensible(ATMOST)
    ensures var slightly := ListFirst(Listener(), CONTEXT, ATMOST, ["a", "b", "c"], Evenly(400));
            slightly.result.Ok? && slightly.result.value.items == ["a"]
    ensures var far := ListFirst(Listener(), CONTEXT, ATMOST, ["a", "b", "c"], Evenly(600));
            far.result == Err(ResourceExhausted)
    ensures forall page: Page :: |page.items| <= 1 ==> Evenly(600).size(page) <= 1024
  {
    var slightly := EvenQuery(400);
    assert SizeTo(slightly, 3) == 1500 && SizeTo(slightly, 2) == 1100 && SizeTo(slightly, 1) == 700;
    assert Shrink(slightly, 3) == Shrink(slightly, 2) == Shrink(slightly, 1);
    assert slightly.visible[0..1] == ["a"];
    assert SizeTo(EvenQuery(600), 3) == 2100;
  }

  function EvenQuery(each: nat): Query {
    Query(["a", "b", "c"], 0, 3, 1024, 2048, Evenly(each).size, Evenly(each).tokens)
  }

  /** A host whose empty page fits and whose others do not. */
  function OnlyEmptyFits(): Host {
    Host(NARROW, (page: Page) => if page.items == [] then 900 else 1100, (k: nat) => "one")
  }

  /** A page may be empty with items left, and its cursor leads nowhere further. */
  lemma EmptyPageWithItemsLeft()
    ensures Valid(NARROW) && Sensible(ATMOST)
    ensures var a := ListFirst(Listener(), CONTEXT, ATMOST, ["a"], OnlyEmptyFits());
            && a.result.Ok? && a.result.value.items == [] && a.result.value.cursor == Some("one")
            && "one" in a.s.cursors && a.s.cursors["one"].next == 0
  {
    var q := Query(["a"], 0, 3, 1024, 2048, OnlyEmptyFits().size, OnlyEmptyFits().tokens);
    assert q.visible[0..1] == ["a"] && q.visible[0..0] == [];
    assert SizeTo(q, 1) == 1100 && SizeTo(q, 0) == 900;
    assert Shrink(q, 1) == Shrink(q, 0);
  }

  const SINGLE: Limits := Limits(1024, 1)

  /** A host of one-item pages, under which the second item is far too long. */
  function SecondTooLong(token: Token): Host {
    Host(SINGLE, (page: Page) => if page.items == ["b"] then 1100 else 600, (k: nat) => token)
  }

  /** A chain cut off: the second page fails, its cursor is gone, and asking again
      is refused, so the third item is never listed. */
  lemma LostCursorCutsChain()
    ensures Valid(SINGLE) && Sensible(Requested(None, None))
    ensures var w0 := World(Listener(), {});
            var first := First(CONTEXT, Requested(None, None), ["a", "b", "c"], SecondTooLong("one"));
            var second := Next(CONTEXT, "one", SecondTooLong("two"));
            var w1 := Step(w0, first);
            var w2 := Step(w1, second);
            && CursorsRight(w0) && Enabled(w0, first) && Enabled(w1, second)
            && ListFirst(w0.s, CONTEXT, Requested(None, None), ["a", "b", "c"], SecondTooLong("one")).result.Ok?
            && "one" in w1.s.cursors && Admits(w1.s, CONTEXT, "one")
            && ListNext(w1.s, CONTEXT, "one", SecondTooLong("two")).result == Err(ResourceExhausted)
            && w2.s.cursors == map[]
            && (forall host :: ListNext(w2.s, CONTEXT, "one", host).result == Err(InvalidParams))
  {
    var q := Query(["a", "b", "c"], 0, 1, 1024, 1024, SecondTooLong("one").size, SecondTooLong("one").tokens);
    assert q.visible[0..1] == ["a"];
    assert SizeTo(q, 1) == 600;
    var r := Query(["a", "b", "c"], 1, 1, 1024, 1024, SecondTooLong("two").size, SecondTooLong("two").tokens);
    assert r.visible[1..2] == ["b"];
    assert SizeTo(r, 2) == 1100;
  }

  // ---- The actor -------------------------------------------------------

  class Runtime {
    var sessions: map<string, Context>
    var cursors: map<Token, Cursor>
    const catalog: nat

    ghost function View(): State
      reads this
    {
      State(sessions, cursors, catalog)
    }

    constructor (catalog: nat)
      ensures View() == State(map[], map[], catalog)
    {
      this.catalog := catalog;
      sessions, cursors := map[], map[];
    }

    method OpenSession(context: Context)
      modifies this
      ensures View() == old(View()).(sessions := old(sessions)[context.id := context])
    {
      sessions := sessions[context.id := context];
    }

    method InvalidateSessions()
      modifies this
      ensures View() == State(map[], map[], catalog)
    {
      sessions, cursors := map[], map[];
    }

    method First(context: Context, requested: Requested, visible: seq<Item>, host: Host)
      returns (r: Result<Page, Fault>)
      modifies this
      ensures Answer(View(), r) == ListFirst(old(View()), context, requested, visible, host)
    {
      hide Shrink;
      if context.id !in sessions || sessions[context.id] != context {
        return Err(SessionExpired);
      }
      r := ListPage(context, requested, visible, 0, host);
    }

    method Next(context: Context, token: Token, host: Host) returns (r: Result<Page, Fault>)
      modifies this
      ensures Answer(View(), r) == ListNext(old(View()), context, token, host)
    {
      hide Shrink, ListFrom;
      if context.id !in sessions || sessions[context.id] != context {
        return Err(SessionExpired);
      }
      if token == "" || token !in cursors {
        return Err(InvalidParams);
      }
      var cursor := cursors[token];
      if cursor.context != context {
        return Err(InvalidParams);
      }
      if cursor.catalog != catalog {
        return Err(CursorExpired);
      }
      cursors := cursors - {token};
      r := ListPage(context, cursor.requested, cursor.visible, cursor.next, host);
    }

    /** Draws up the page from `start`, one item shorter each time it is too long. */
    method ListPage(context: Context, requested: Requested, visible: seq<Item>, start: nat, host: Host)
      returns (r: Result<Page, Fault>)
      modifies this
      ensures Answer(View(), r) == ListFrom(old(View()), context, requested, visible, start, host)
    {
      var appliedItems := AppliedItems(host.limits, requested);
      var appliedBytes := AppliedBytes(host.limits, requested);
      if start > |visible| {
        return Err(CursorExpired);
      }
      ghost var q := Query(visible, start, appliedItems, appliedBytes, host.limits.responseBytes, host.size,
                           host.tokens);
      var end: nat := Min(start + appliedItems, |visible|);
      var attempt: nat := 0;
      var byteLimited := false;
      var page: Page;
      while true
        invariant InRange(q, end)
        invariant attempt == FirstEnd(q) - end && byteLimited == (attempt > 0)
        invariant Shrink(q, end) == Shrink(q, FirstEnd(q))
        decreases end - start
      {
        var hasMore := end < |visible|;
        page := Page(visible[start..end], appliedItems, appliedBytes,
                     if hasMore then Some(host.tokens(attempt)) else None,
                     Reasons(hasMore, end == start + appliedItems, byteLimited));
        assert page == PageTo(q, end);
        var count := host.size(page);
        if count > host.limits.responseBytes {
          return Err(ResourceExhausted);
        }
        if count <= appliedBytes {
          break;
        }
        if end == start {
          return Err(ResourceExhausted);
        }
        end, attempt, byteLimited := end - 1, attempt + 1, true;
      }
      if page.cursor.Some? {
        cursors := cursors[page.cursor.value := Cursor(context, catalog, requested, visible, end)];
      }
      r := Ok(page);
    }
  }
}
