/**
  Paged fetching of catalog items: the do-while loop shared by `ListAsync` and
  `SearchAsync`, and the dispatch from the requested item kind to the remote
  operation that serves it.
 */
module Paging {
  import opened Wrappers

  /** Limit of every page request, and the count that says "more may follow" (`total`). */
  const PageSize: int := 50
  /** Once this many items are gathered no further page is requested (`max`). */
  const MaxItems: int := 100

  /** The item types a caller can ask for; the source selects on the runtime type. */
  datatype ItemKind = Category | SimplifiedPlaylist | Album | SimplifiedShow

  /** Page descriptor handed to the remote: `limit` items starting at `offset`. */
  datatype PageRequest = PageRequest(limit: int, offset: int)

  /** One page of a remote response: its items and the count it reports. */
  datatype Page<T> = Page(items: seq<T>, count: int)

  /** Which sub-resources a search asks for. */
  datatype SearchType = SearchType(playlist: bool, album: bool, show: bool)

  /** The envelope a search returns; each slice may be null. */
  datatype SearchContent<T> = SearchContent(playlists: Option<Page<T>>, albums: Option<Page<T>>, shows: Option<Page<T>>)

  /** A call made to the remote catalog API, with its arguments. */
  datatype RemoteCall =
    | GetAllCategories(page: PageRequest)
    | GetCategoryPlaylists(categoryId: Option<string>, page: PageRequest)
    | SearchForItem(query: string, searchType: SearchType, page: PageRequest)

  /** The catalog endpoints `ListAsync` may use. */
  datatype ListRemote<T> = ListRemote(
    allCategories: PageRequest -> Option<Page<T>>,
    categoryPlaylists: (Option<string>, PageRequest) -> Option<Page<T>>)

  /** What one round of the loop obtains: the page (None when null) and the remote calls made for it. */
  datatype Fetched<T> = Fetched(page: Option<Page<T>>, calls: seq<RemoteCall>)

  /** The loop's accumulated state: items gathered, page descriptors used, remote calls made. */
  datatype Listing<T> = Listing(results: seq<T>, requests: seq<PageRequest>, calls: seq<RemoteCall>)

  /** `items?.Count ?? 0` */
  function CountOf<T>(f: Fetched<T>): int {
    if f.page.Some? then f.page.value.count else 0
  }

  /** The items a round appends: none for a null page. */
  function ItemsOf<T>(f: Fetched<T>): seq<T> {
    if f.page.Some? then f.page.value.items else []
  }

  /** The do-while condition. */
  predicate Continues(count: int, gathered: int) {
    count > 0 && gathered < MaxItems && count == PageSize
  }

  /** A page that reports a full count carries at least one item, so the loop makes progress. */
  ghost predicate Progressing<T>(fetch: PageRequest -> Fetched<T>) {
    forall p :: CountOf(fetch(p)) == PageSize ==> |ItemsOf(fetch(p))| > 0
  }

  /** The page's reported count is its number of items, and at most one page's worth. */
  ghost predicate Consistent<T>(f: Fetched<T>) {
    f.page.Some? ==> f.page.value.count == |f.page.value.items| <= PageSize
  }

  /** A non-null page carrying exactly one page's worth of items. */
  ghost predicate Full<T>(f: Fetched<T>) {
    f.page.Some? && f.page.value.count == PageSize && |f.page.value.items| == PageSize
  }

  /**
    The loop from the round that requests `offset` onwards, having gathered `done`:
    one round, then another exactly when the loop condition holds.
   */
  ghost function Walk<T>(fetch: PageRequest -> Fetched<T>, offset: int, done: Listing<T>): (r: Listing<T>)
    requires Progressing(fetch)
    decreases MaxItems - |done.results|
  {
    var request := PageRequest(PageSize, offset);
    var f := fetch(request);
    var next := Listing(done.results + ItemsOf(f), done.requests + [request], done.calls + f.calls);
    if Continues(CountOf(f), |next.results|) then
      // a continuing round had a non-null page, so the offset advanced
      Walk(fetch, offset + PageSize, next)
    else
      next
  }

  /** One round of the loop, then the rest of it. */
  lemma WalkUnfolds<T>(fetch: PageRequest -> Fetched<T>, offset: int, done: Listing<T>)
    requires Progressing(fetch)
    ensures var f := fetch(PageRequest(PageSize, offset));
            var next := Listing(done.results + ItemsOf(f), done.requests + [PageRequest(PageSize, offset)], done.calls + f.calls);
            && (Continues(CountOf(f), |next.results|) ==> |done.results| < |next.results| < MaxItems && Walk(fetch, offset, done) == Walk(fetch, offset + PageSize, next))
            && (!Continues(CountOf(f), |next.results|) ==> Walk(fetch, offset, done) == next)
  {
  }

  /** The loop only ever appends: to the items gathered, the page requests and the remote calls; every request it adds has limit 50. */
  lemma {:induction false} WalkExtends<T>(fetch: PageRequest -> Fetched<T>, offset: int, done: Listing<T>)
    requires Progressing(fetch)
    ensures var r := Walk(fetch, offset, done);
            && done.results <= r.results && done.calls <= r.calls && done.requests < r.requests
            && forall k :: |done.requests| <= k < |r.requests| ==> r.requests[k].limit == PageSize
    decreases MaxItems - |done.results|
  {
    var request := PageRequest(PageSize, offset);
    var f := fetch(request);
    var next := Listing(done.results + ItemsOf(f), done.requests + [request], done.calls + f.calls);
    WalkUnfolds(fetch, offset, done);
    if Continues(CountOf(f), |next.results|) {
      WalkExtends(fetch, offset + PageSize, next);
      var r := Walk(fetch, offset + PageSize, next);
      assert done.results <= r.results by {
        assert done.results == r.results[..|done.results|];
      }
      assert done.calls <= r.calls by {
        assert done.calls == r.calls[..|done.calls|];
      }
      assert done.requests < r.requests by {
        assert done.requests == r.requests[..|done.requests|];
      }
      assert next.requests[|done.requests|] == request;
    }
  }

  /** The whole loop, starting at offset 0 with nothing gathered. */
  ghost function Aggregate<T>(fetch: PageRequest -> Fetched<T>): Listing<T>
    requires Progressing(fetch)
  {
    Walk(fetch, 0, Listing([], [], []))
  }

  /** The do-while loop of `ListAsync` and `SearchAsync`, over any per-page fetch step. */
  method FetchPages<T>(fetch: PageRequest -> Fetched<T>) returns (r: Listing<T>)
    requires Progressing(fetch)
    ensures r == Aggregate(fetch)
  {
    var results: seq<T> := [];
    var requests: seq<PageRequest> := [];
    var calls: seq<RemoteCall> := [];
    var page := PageRequest(PageSize, 0);
    var more := true;
    while more
      invariant page.limit == PageSize
      invariant more ==> Walk(fetch, page.offset, Listing(results, requests, calls)) == Aggregate(fetch)
      invariant !more ==> Listing(results, requests, calls) == Aggregate(fetch)
      decreases more, MaxItems - |results|
    {
      var fetched := fetch(page);
      requests := requests + [page];
      calls := calls + fetched.calls;
      if fetched.page.Some? {
        results := results + fetched.page.value.items;
        page := page.(offset := page.offset + PageSize);
      }
      var count := if fetched.page.Some? then fetched.page.value.count else 0;
      more := count > 0 && |results| < MaxItems && count == PageSize;
    }
    r := Listing(results, requests, calls);
  }

  // ---------------------------------------------------------------------------
  // Shape of the loop's outcome

  /** The items of the pages obtained for `requests`, in request order. */
  ghost function Gathered<T>(fetch: PageRequest -> Fetched<T>, requests: seq<PageRequest>): seq<T> {
    if requests == [] then [] else Gathered(fetch, requests[..|requests| - 1]) + ItemsOf(fetch(requests[|requests| - 1]))
  }

  /** The remote calls made for `requests`, in request order. */
  ghost function CallsOf<T>(fetch: PageRequest -> Fetched<T>, requests: seq<PageRequest>): seq<RemoteCall> {
    if requests == [] then [] else CallsOf(fetch, requests[..|requests| - 1]) + fetch(requests[|requests| - 1]).calls
  }

  /** The k-th request asks for limit 50 at offset 50k, and what was gathered and called follows the requests. */
  ghost predicate Orderly<T>(fetch: PageRequest -> Fetched<T>, l: Listing<T>) {
    && (forall k :: 0 <= k < |l.requests| ==> l.requests[k] == PageRequest(PageSize, PageSize * k))
    && l.results == Gathered(fetch, l.requests)
    && l.calls == CallsOf(fetch, l.requests)
  }

  /**
    The loop condition held after each of `requests`: the round reported count 50 and,
    counting that round's items, fewer than 100 items had been gathered.
   */
  ghost predicate AllContinued<T>(fetch: PageRequest -> Fetched<T>, requests: seq<PageRequest>) {
    forall k :: 0 <= k < |requests| ==> Continues(CountOf(fetch(requests[k])), |Gathered(fetch, requests[..k + 1])|)
  }

  /** One more round keeps the listing orderly. */
  lemma OrderlyStep<T>(fetch: PageRequest -> Fetched<T>, done: Listing<T>)
    requires Orderly(fetch, done)
    ensures var request := PageRequest(PageSize, PageSize * |done.requests|);
            Orderly(fetch, Listing(done.results + ItemsOf(fetch(request)), done.requests + [request], done.calls + fetch(request).calls))
  {
    var request := PageRequest(PageSize, PageSize * |done.requests|);
    var requests := done.requests + [request];
    assert requests[..|requests| - 1] == done.requests;
  }

  /** The loop has ended as the source's loop ends: orderly, the condition held after every round but the last, and failed after the last. */
  ghost predicate Finished<T>(fetch: PageRequest -> Fetched<T>, r: Listing<T>) {
    && |r.requests| >= 1
    && Orderly(fetch, r)
    && AllContinued(fetch, r.requests[..|r.requests| - 1])
    && !Continues(CountOf(fetch(r.requests[|r.requests| - 1])), |r.results|)
  }

  /** A round after which the loop condition held extends a run of such rounds. */
  lemma AllContinuedStep<T>(fetch: PageRequest -> Fetched<T>, requests: seq<PageRequest>, request: PageRequest)
    requires AllContinued(fetch, requests)
    requires Continues(CountOf(fetch(request)), |Gathered(fetch, requests + [request])|)
    ensures AllContinued(fetch, requests + [request])
  {
    var longer := requests + [request];
    forall k | 0 <= k < |longer| ensures Continues(CountOf(fetch(longer[k])), |Gathered(fetch, longer[..k + 1])|) {
      if k < |requests| {
        assert longer[k] == requests[k] && longer[..k + 1] == requests[..k + 1];
      } else {
        assert longer[..k + 1] == longer;
      }
    }
  }

  /** A round that fails the loop condition ends the loop as the source's loop ends. */
  lemma FinishedStep<T>(fetch: PageRequest -> Fetched<T>, done: Listing<T>, next: Listing<T>, request: PageRequest)
    requires Orderly(fetch, next) && AllContinued(fetch, done.requests)
    requires next.requests == done.requests + [request]
    requires !Continues(CountOf(fetch(request)), |next.results|)
    ensures Finished(fetch, next)
  {
    assert next.requests[..|next.requests| - 1] == done.requests;
  }

  lemma {:induction false} WalkOrderly<T>(fetch: PageRequest -> Fetched<T>, offset: int, done: Listing<T>)
    requires Progressing(fetch)
    requires Orderly(fetch, done) && AllContinued(fetch, done.requests) && offset == PageSize * |done.requests|
    ensures Finished(fetch, Walk(fetch, offset, done))
    decreases MaxItems - |done.results|
  {
    var request := PageRequest(PageSize, offset);
    var f := fetch(request);
    var next := Listing(done.results + ItemsOf(f), done.requests + [request], done.calls + f.calls);
    OrderlyStep(fetch, done);
    WalkUnfolds(fetch, offset, done);
    if Continues(CountOf(f), |next.results|) {
      AllContinuedStep(fetch, done.requests, request);
      WalkOrderly(fetch, offset + PageSize, next);
    } else {
      FinishedStep(fetch, done, next, request);
    }
  }

  /**
    The outcome of the loop: the k-th round requests limit 50 at offset 50k; the result is the items of
    the rounds' pages in round order; after every round but the last the count was 50 with fewer than
    100 items gathered; after the last one the loop condition failed.
   */
  lemma AggregateShape<T>(fetch: PageRequest -> Fetched<T>)
    requires Progressing(fetch)
    ensures Finished(fetch, Aggregate(fetch))
  {
    WalkOrderly(fetch, 0, Listing([], [], []));
  }

  /** A first page reporting fewer than 50 (or null, or 0) ends the loop after one round with just its items. */
  lemma ShortFirstPage<T>(fetch: PageRequest -> Fetched<T>)
    requires Progressing(fetch)
    requires CountOf(fetch(PageRequest(PageSize, 0))) < PageSize
    ensures var first := fetch(PageRequest(PageSize, 0));
            Aggregate(fetch) == Listing(ItemsOf(first), [PageRequest(PageSize, 0)], first.calls)
  {
  }

  /** When every page is full, exactly two rounds run and exactly 100 items come back, in page order. */
  lemma FullPagesReachCap<T>(fetch: PageRequest -> Fetched<T>)
    requires forall p :: Full(fetch(p))
    ensures Progressing(fetch)
    ensures var r := Aggregate(fetch);
            && r.requests == [PageRequest(PageSize, 0), PageRequest(PageSize, PageSize)]
            && r.results == ItemsOf(fetch(PageRequest(PageSize, 0))) + ItemsOf(fetch(PageRequest(PageSize, PageSize)))
            && |r.results| == MaxItems
  {
    var first := fetch(PageRequest(PageSize, 0));
    var l1 := Listing(ItemsOf(first), [PageRequest(PageSize, 0)], first.calls);
    assert Aggregate(fetch) == Walk(fetch, PageSize, l1);
  }

  lemma {:induction false} WalkBounded<T>(fetch: PageRequest -> Fetched<T>, offset: int, done: Listing<T>)
    requires Progressing(fetch)
    requires forall p :: Consistent(fetch(p))
    requires |done.requests| <= 1 && |done.results| == PageSize * |done.requests|
    ensures var r := Walk(fetch, offset, done); |r.requests| <= 2 && |r.results| <= MaxItems
    decreases MaxItems - |done.results|
  {
    var request := PageRequest(PageSize, offset);
    var f := fetch(request);
    assert Consistent(f);
    var next := Listing(done.results + ItemsOf(f), done.requests + [request], done.calls + f.calls);
    if Continues(CountOf(f), |next.results|) {
      WalkBounded(fetch, offset + PageSize, next);
    }
  }

  /** When each page's count is its item count (at most 50), at most two rounds run and at most 100 items return. */
  lemma ConsistentPagesBounded<T>(fetch: PageRequest -> Fetched<T>)
    requires forall p :: Consistent(fetch(p))
    ensures Progressing(fetch)
    ensures |Aggregate(fetch).requests| <= 2 && |Aggregate(fetch).results| <= MaxItems
  {
    assert Progressing(fetch) by {
      forall p | CountOf(fetch(p)) == PageSize ensures |ItemsOf(fetch(p))| > 0 {
        assert Consistent(fetch(p));
      }
    }
    WalkBounded(fetch, 0, Listing([], [], []));
  }

  // ---------------------------------------------------------------------------
  // Dispatch on the requested item kind

  /** The search selector: each flag is set exactly when the requested kind is that sub-resource. */
  function SearchTypeFor(kind: ItemKind): (t: SearchType)
    ensures !(t.playlist && t.album) && !(t.playlist && t.show) && !(t.album && t.show)
    ensures (t.playlist || t.album || t.show) <==> kind != Category
  {
    SearchType(kind == SimplifiedPlaylist, kind == Album, kind == SimplifiedShow)
  }

  /** One round of `ListAsync`: categories or a category's playlists; any other kind gets a null page without a call. */
  function ListFetch<T>(kind: ItemKind, id: Option<string>, remote: ListRemote<T>): (f: PageRequest -> Fetched<T>)
    ensures forall p :: |f(p).calls| <= 1 && forall c :: c in f(p).calls ==> c.page == p
    ensures kind == Category || kind == SimplifiedPlaylist ==> forall p :: |f(p).calls| == 1
    ensures kind != Category && kind != SimplifiedPlaylist ==> forall p :: f(p) == Fetched(None, [])
  {
    (page: PageRequest) =>
      match kind
      case Category => Fetched(remote.allCategories(page), [GetAllCategories(page)])
      case SimplifiedPlaylist => Fetched(remote.categoryPlaylists(id, page), [GetCategoryPlaylists(id, page)])
      case _ => Fetched(None, [])
  }

  /** One round of `SearchAsync`: one search call; only the playlist slice is taken from the envelope. */
  function SearchFetch<T>(kind: ItemKind, query: string, search: (string, SearchType, PageRequest) -> SearchContent<T>): (f: PageRequest -> Fetched<T>)
    ensures forall p :: f(p).calls == [SearchForItem(query, SearchTypeFor(kind), p)]
    ensures kind != SimplifiedPlaylist ==> forall p :: f(p).page == None
  {
    (page: PageRequest) =>
      var content := search(query, SearchTypeFor(kind), page);
      Fetched(if kind == SimplifiedPlaylist then content.playlists else None, [SearchForItem(query, SearchTypeFor(kind), page)])
  }

  lemma {:induction false} CallsFollowRequests<T>(fetch: PageRequest -> Fetched<T>, call: PageRequest -> RemoteCall, requests: seq<PageRequest>)
    requires forall p :: fetch(p).calls == [call(p)]
    ensures |CallsOf(fetch, requests)| == |requests|
    ensures forall k :: 0 <= k < |requests| ==> CallsOf(fetch, requests)[k] == call(requests[k])
  {
    if requests != [] {
      var n := |requests| - 1;
      CallsFollowRequests(fetch, call, requests[..n]);
      assert fetch(requests[n]).calls == [call(requests[n])];
    }
  }

  /** A kind `ListAsync` does not serve yields no item and no remote call, after one round. */
  lemma ListUnsupportedIsEmpty<T>(kind: ItemKind, id: Option<string>, remote: ListRemote<T>)
    requires kind != Category && kind != SimplifiedPlaylist
    ensures Progressing(ListFetch(kind, id, remote))
    ensures Aggregate(ListFetch(kind, id, remote)) == Listing([], [PageRequest(PageSize, 0)], [])
  {
    var fetch := ListFetch(kind, id, remote);
    assert forall p :: fetch(p) == Fetched(None, []);
  }

  /** A kind `SearchAsync` does not serve yields no item, after exactly one search call. */
  lemma SearchUnsupportedIsEmpty<T>(kind: ItemKind, query: string, search: (string, SearchType, PageRequest) -> SearchContent<T>)
    requires kind != SimplifiedPlaylist
    ensures Progressing(SearchFetch(kind, query, search))
    ensures Aggregate(SearchFetch(kind, query, search))
         == Listing([], [PageRequest(PageSize, 0)], [SearchForItem(query, SearchTypeFor(kind), PageRequest(PageSize, 0))])
  {
    var fetch := SearchFetch(kind, query, search);
    assert forall p :: fetch(p).page == None;
  }

  /** When each round makes one call about its own page, the loop's k-th call is the call for offset 50·k. */
  lemma CallsFollowOffsets<T>(fetch: PageRequest -> Fetched<T>, call: PageRequest -> RemoteCall)
    requires Progressing(fetch)
    requires forall p :: fetch(p).calls == [call(p)]
    ensures var calls := Aggregate(fetch).calls;
            && |calls| >= 1
            && forall k :: 0 <= k < |calls| ==> calls[k] == call(PageRequest(PageSize, PageSize * k))
  {
    AggregateShape(fetch);
    CallsFollowRequests(fetch, call, Aggregate(fetch).requests);
  }

  /** Every listing round of a supported kind calls that kind's endpoint, at that round's offset. */
  lemma ListCallsFollowOffsets<T>(kind: ItemKind, id: Option<string>, remote: ListRemote<T>)
    requires Progressing(ListFetch(kind, id, remote))
    ensures var calls := Aggregate(ListFetch(kind, id, remote)).calls;
            && (kind == Category ==> forall k :: 0 <= k < |calls| ==> calls[k] == GetAllCategories(PageRequest(PageSize, PageSize * k)))
            && (kind == SimplifiedPlaylist ==>
                  forall k :: 0 <= k < |calls| ==> calls[k] == GetCategoryPlaylists(id, PageRequest(PageSize, PageSize * k)))
  {
    var fetch := ListFetch(kind, id, remote);
    if kind == Category {
      var call := (p: PageRequest) => GetAllCategories(p);
      assert forall p :: fetch(p).calls == [call(p)];
      CallsFollowOffsets(fetch, call);
    } else if kind == SimplifiedPlaylist {
      var call := (p: PageRequest) => GetCategoryPlaylists(id, p);
      assert forall p :: fetch(p).calls == [call(p)];
      CallsFollowOffsets(fetch, call);
    }
  }

  /** `ListAsync`: the items of every category (or every playlist of category `id`), a page at a time. */
  method ListAsync<T>(kind: ItemKind, id: Option<string>, remote: ListRemote<T>) returns (results: seq<T>, calls: seq<RemoteCall>)
    requires Progressing(ListFetch(kind, id, remote))
    ensures var r := Aggregate(ListFetch(kind, id, remote)); results == r.results && calls == r.calls
    ensures kind == Category ==> forall k :: 0 <= k < |calls| ==> calls[k] == GetAllCategories(PageRequest(PageSize, PageSize * k))
    ensures kind == SimplifiedPlaylist ==>
      forall k :: 0 <= k < |calls| ==> calls[k] == GetCategoryPlaylists(id, PageRequest(PageSize, PageSize * k))
    ensures kind != Category && kind != SimplifiedPlaylist ==> results == [] && calls == []
  {
    var r := FetchPages(ListFetch(kind, id, remote));
    results, calls := r.results, r.calls;
    ListCallsFollowOffsets(kind, id, remote);
    if kind != Category && kind != SimplifiedPlaylist {
      ListUnsupportedIsEmpty(kind, id, remote);
    }
  }

  /** Every search round calls the search for the query with the kind's selector, at that round's offset. */
  lemma SearchCallsFollowOffsets<T>(kind: ItemKind, query: string, search: (string, SearchType, PageRequest) -> SearchContent<T>)
    requires Progressing(SearchFetch(kind, query, search))
    ensures var calls := Aggregate(SearchFetch(kind, query, search)).calls;
            && |calls| >= 1
            && forall k :: 0 <= k < |calls| ==> calls[k] == SearchForItem(query, SearchTypeFor(kind), PageRequest(PageSize, PageSize * k))
  {
    CallsFollowOffsets(SearchFetch(kind, query, search), p => SearchForItem(query, SearchTypeFor(kind), p));
  }

  /** `SearchAsync`: the items matching `query`, a page at a time; one search call per round. */
  method SearchAsync<T>(kind: ItemKind, query: string, search: (string, SearchType, PageRequest) -> SearchContent<T>)
    returns (results: seq<T>, calls: seq<RemoteCall>)
    requires Progressing(SearchFetch(kind, query, search))
    ensures var r := Aggregate(SearchFetch(kind, query, search)); results == r.results && calls == r.calls
    ensures |calls| >= 1
    ensures forall k :: 0 <= k < |calls| ==> calls[k] == SearchForItem(query, SearchTypeFor(kind), PageRequest(PageSize, PageSize * k))
    ensures kind != SimplifiedPlaylist ==> results == [] && |calls| == 1
  {
    var r := FetchPages(SearchFetch(kind, query, search));
    results, calls := r.results, r.calls;
    SearchCallsFollowOffsets(kind, query, search);
    if kind != SimplifiedPlaylist {
      SearchUnsupportedIsEmpty(kind, query, search);
    }
  }
}
