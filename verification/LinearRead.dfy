/** Reading an issue with all its comments, page by page. */
module LinearRead {
  import opened Prelude
  import opened SourcePort
  import opened LinearClose

  /** One answer to the observe query; an empty `endCursor` text counts as missing. */
  datatype Page = Page(core: Core, notes: seq<Note>, hasNext: bool, endCursor: Option<string>)

  datatype Fetch = Failed(error: Error) | Absent | Fetched(page: Page)

  function Concat(pages: seq<Fetch>): seq<Note> {
    if pages == [] then []
    else
      var last := pages[|pages| - 1];
      Concat(pages[..|pages| - 1]) + if last.Fetched? then last.page.notes else []
  }

  /** A page that fits the issue asked for and the one seen on the first page. */
  predicate Fits(item: ItemRef, pageSize: nat, first: Core, f: Fetch) {
    && f.Fetched? && f.page.core == first && first.id == item.externalId
    && |f.page.notes| <= pageSize
  }

  predicate HasCursor(f: Fetch) {
    f.Fetched? && f.page.hasNext && f.page.endCursor.Some? && f.page.endCursor.value != ""
  }

  /** The first `n` answers agree on the issue, and each leads on to the next by a new cursor. */
  ghost predicate Linked(item: ItemRef, pageSize: nat, pages: seq<Fetch>, n: nat)
    requires n <= |pages|
  {
    && (forall k :: 0 <= k < n ==> pages[0].Fetched? && Fits(item, pageSize, pages[0].page.core, pages[k]))
    && (forall k :: 0 <= k < n ==> HasCursor(pages[k]))
    && (forall j, k :: 0 <= j < k < n ==> pages[j].page.endCursor != pages[k].page.endCursor)
  }

  /** Answers `0` to `n` are one whole listing. */
  ghost predicate Whole(item: ItemRef, pageSize: nat, pages: seq<Fetch>, n: nat)
    requires n < |pages|
  {
    && Linked(item, pageSize, pages, n)
    && pages[0].Fetched? && Fits(item, pageSize, pages[0].page.core, pages[n])
    && !pages[n].page.hasNext
  }

  /**
   The reading loop succeeds with an issue exactly when some answer within the page budget ends
   one consistent listing, and then returns that issue with the comments of the whole listing.
   */
  method QueryIssue(maxPages: nat, pageSize: nat, item: ItemRef, pages: seq<Fetch>)
    returns (r: Result<Option<Issue>, Error>)
    requires |pages| == maxPages
    ensures forall n :: 0 <= n < maxPages && Whole(item, pageSize, pages, n) ==>
              r == Ok(Some(Issue(pages[0].page.core, Concat(pages[..n + 1]))))
    ensures r.Ok? && r.value.Some? ==> exists n :: 0 <= n < maxPages && Whole(item, pageSize, pages, n)
    ensures r == Ok(None) <==> maxPages > 0 && pages[0] == Absent
  {
    var cursors: set<string> := {};
    var expected: Option<Core> := None;
    var notes := [];
    for k := 0 to maxPages
      invariant Linked(item, pageSize, pages, k)
      invariant expected == if k == 0 then None else Some(pages[0].page.core)
      invariant notes == Concat(pages[..k])
      invariant forall text :: text in cursors <==>
                  exists j :: 0 <= j < k && pages[j].page.endCursor == Some(text)
    {
      var answer := pages[k];
      if answer.Failed? { return Err(answer.error); }
      if answer.Absent? { return if expected.None? then Ok(None) else Err(SourceStateConflict); }
      var page := answer.page;
      if page.core.id != item.externalId { return Err(InvalidProviderResponse); }
      if expected.Some? && expected.value != page.core { return Err(SourceStateConflict); }
      expected := Some(if expected.Some? then expected.value else page.core);
      if |page.notes| > pageSize { return Err(InvalidProviderResponse); }
      notes := notes + page.notes;
      assert pages[..k + 1][..k] == pages[..k];
      if !page.hasNext {
        assert Whole(item, pageSize, pages, k);
        return Ok(Some(Issue(expected.value, notes)));
      }
      if page.endCursor.None? || page.endCursor.value == "" { return Err(InvalidProviderResponse); }
      if page.endCursor.value in cursors { return Err(InvalidProviderResponse); }
      cursors := cursors + {page.endCursor.value};
    }
    return Err(InvalidProviderResponse);
  }

  /** What a whole listing is: one issue throughout, bounded pages, a new cursor from each page to the next, and an end. */
  lemma WholeMeans(item: ItemRef, pageSize: nat, pages: seq<Fetch>, n: nat)
    requires n < |pages|
    ensures Whole(item, pageSize, pages, n) <==>
            && (forall k :: 0 <= k <= n ==>
                  && pages[k].Fetched? && pages[0].Fetched? && pages[k].page.core == pages[0].page.core
                  && pages[k].page.core.id == item.externalId && |pages[k].page.notes| <= pageSize)
            && (forall k :: 0 <= k < n ==>
                  && pages[k].Fetched? && pages[k].page.hasNext && pages[k].page.endCursor.Some?
                  && pages[k].page.endCursor.value != "")
            && (forall j, k :: 0 <= j < k < n ==>
                  && pages[j].Fetched? && pages[k].Fetched?
                  && pages[j].page.endCursor != pages[k].page.endCursor)
            && pages[n].Fetched? && !pages[n].page.hasNext
  {
  }
}
