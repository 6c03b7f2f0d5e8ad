/** What a page of a listing says beside its items, and why a listing fails. */
module Listings {
  import opened Common
  import opened Pagination

  /** What a page tells: the limits applied, which are the stricter of those asked
      for and those of the host; whether there is more; and, if there is, the one
      limit that ended the page. */
  predicate Tells(page: Page, requested: Requested, limits: Limits) {
    && page.maxItems <= limits.pageItems && (requested.maxItems.Some? ==> page.maxItems <= requested.maxItems.value)
    && (page.maxItems == limits.pageItems || Some(page.maxItems) == requested.maxItems)
    && page.maxBytes <= limits.responseBytes
    && (requested.maxBytes.Some? ==> page.maxBytes <= requested.maxBytes.value)
    && (page.maxBytes == limits.responseBytes || Some(page.maxBytes) == requested.maxBytes)
    && page.reasons
       == if page.cursor.None? then [] else if |page.items| == page.maxItems then ["maxItems"] else ["maxBytes"]
  }

  /** Where a page ended for its bytes, every page of more items that was drawn up
      was too long, and one of one item more was. */
  ghost predicate EndedByBytes(page: Page, visible: seq<Item>, start: nat, host: Host) {
    page.reasons == ["maxBytes"] ==>
      && start + |page.items| < |visible|
      && exists longer: Page ::
           && longer.items == visible[start..start + |page.items| + 1] && longer.maxItems == page.maxItems
           && host.size(longer) > page.maxBytes
  }

  lemma ChosenTells(q: Query, limits: Limits, requested: Requested)
    requires q.start <= |q.visible| && q.maxItems == AppliedItems(limits, requested)
    requires q.maxBytes == AppliedBytes(limits, requested) && Shrink(q, FirstEnd(q)).Ok?
    ensures Tells(Shrink(q, FirstEnd(q)).value.page, requested, limits)
    ensures var page := Shrink(q, FirstEnd(q)).value.page;
            page.reasons == ["maxBytes"] ==>
              && q.start + |page.items| < |q.visible|
              && exists longer: Page ::
                   && longer.items == q.visible[q.start..q.start + |page.items| + 1]
                   && longer.maxItems == page.maxItems && q.size(longer) > page.maxBytes
  {
    hide Shrink;
    ShrinkIsRight(q, FirstEnd(q));
    var chosen := Shrink(q, FirstEnd(q)).value;
    if chosen.end < FirstEnd(q) {
      assert SizeTo(q, chosen.end + 1) > q.maxBytes;
    }
  }

  /** Every page a listing answers with, first or later, tells what it should. */
  lemma PagesTell(s: State, context: Context, requested: Requested, visible: seq<Item>, start: nat, host: Host)
    requires ListFrom(s, context, requested, visible, start, host).result.Ok?
    ensures var page := ListFrom(s, context, requested, visible, start, host).result.value;
            Tells(page, requested, host.limits) && EndedByBytes(page, visible, start, host)
  {
    hide Shrink, Tells;
    var q := Query(visible, start, AppliedItems(host.limits, requested), AppliedBytes(host.limits, requested),
                   host.limits.responseBytes, host.size, host.tokens);
    ChosenTells(q, host.limits, requested);
  }

  /** A later page is refused with the error of the first thing that is wrong: the
      session is over; no open cursor of this session has the token; the catalog has
      changed since.  And no admitted page fails but for its size. */
  lemma NextRefusedExactly(w: World, context: Context, token: Token, host: Host)
    requires CursorsRight(w)
    ensures var r := ListNext(w.s, context, token, host).result;
            var mine := token in w.s.cursors && w.s.cursors[token].context == context;
            && (r == Err(SessionExpired) <==> !Active(w.s, context))
            && (r == Err(InvalidParams) <==> Active(w.s, context) && !mine)
            && (r == Err(CursorExpired) <==>
                  Active(w.s, context) && mine && w.s.cursors[token].catalog != w.s.catalog)
  {
    hide Shrink;
    if Admits(w.s, context, token) {
      var c := w.s.cursors[token];
      ShrinkIsRight(QueryOf(host, c, c.next), FirstEnd(QueryOf(host, c, c.next)));
    }
  }

  /** A first page fails because the session is over, or because of its size. */
  lemma FirstRefusedExactly(s: State, context: Context, requested: Requested, visible: seq<Item>, host: Host)
    ensures var r := ListFirst(s, context, requested, visible, host).result;
            && (r == Err(SessionExpired) <==> !Active(s, context))
            && (r.Err? && Active(s, context) ==> r == Err(ResourceExhausted))
  {
    hide Shrink;
    var q := Query(visible, 0, AppliedItems(host.limits, requested), AppliedBytes(host.limits, requested),
                   host.limits.responseBytes, host.size, host.tokens);
    ShrinkIsRight(q, FirstEnd(q));
  }
}
