/**
 * The product listing page: the filter record, the image-search ("AI") mode,
 * the events of the filter panel and when they refetch the listing.
 *
 * The listing refetches from an effect that depends on the `filters` object
 * and on `aiInfo.active`. Every `setFilters` call builds a new object, so
 * every event that sets the filters re-runs the effect; the effect fetches
 * only when image-search mode is off.
 */
module Catalog {
  import opened Common

  /** The filter record of the listing page. */
  datatype Filters = Filters(
    category: seq<string>,
    priceMin: int,
    priceMax: int,
    keyword: string,
    page: int,
    pageSize: int)

  /** The image-search state: whether its results are shown, the detected labels, the keyword. */
  datatype AiInfo = AiInfo(active: bool, detected: seq<string>, keyword: string)

  /** A product card of the listing, identified by its id. */
  datatype Row = Row(id: int)

  /** The page state the events change. */
  datatype Listing = Listing(filters: Filters, ai: AiInfo, products: seq<Row>, total: int)

  /** The highest price the slider offers. */
  const PriceCap := 5000000

  /** The filters the page starts with. */
  const InitialFilters := Filters([], 0, PriceCap, "", 1, 12)

  /** Image-search mode off, as every reset writes it. */
  const AiOff := AiInfo(false, [], "")

  /** The page state before anything has loaded. */
  const Initial := Listing(InitialFilters, AiOff, [], 0)

  /** The label shown when image search found no keyword. */
  const Undetected := "Đang xác định..."

  /** The body of a resolved `POST /products/search-image`. */
  datatype AiReply = AiReply(success: bool, data: Option<seq<Row>>, total: Option<int>, keyword: Option<string>)

  /** The body of a resolved `GET /products`. */
  datatype Page = Page(data: Option<seq<Row>>, total: Option<int>)

  /** What the user does on the page, and what comes back from the server. */
  datatype Event =
    | KeywordTyped(text: string)
    | PressEnter
    | CategoriesChanged(checked: seq<string>)
    | PriceMoved(low: int, high: int)
    | PriceReleased
    | PageChanged(page: int)
    | ResetSearch
    | ImageSearched(search: Response<AiReply>)
    | ProductsLoaded(listing: Response<Page>)

  /** The query parameters of `GET /products`. */
  datatype Query = Query(categories: string, priceMin: int, priceMax: int, search: string, page: int, pageSize: int)

  /** The query the listing sends for the filters `f`. */
  function QueryOf(f: Filters): (q: Query)
    ensures q.categories == Join(f.category, ',')
    ensures q.page == f.page && q.pageSize == f.pageSize && q.search == f.keyword
    ensures q.priceMin == f.priceMin && q.priceMax == f.priceMax
  {
    Query(Join(f.category, ','), f.priceMin, f.priceMax, f.keyword, f.page, f.pageSize)
  }

  /** The event calls `setFilters`, which re-runs the fetching effect. */
  predicate SetsFilters(e: Event) {
    match e
      case ImageSearched(reply) => reply.Thrown?
      case ProductsLoaded(_) => false
      case _ => true
  }

  /** `handleResetSearch`. */
  function Reset(s: Listing): (r: Listing)
    ensures !r.ai.active && r.ai.detected == [] && r.ai.keyword == ""
    ensures r.filters.keyword == "" && r.filters.page == 1
    ensures r.filters.category == s.filters.category && r.filters.pageSize == s.filters.pageSize
    ensures r.filters.priceMin == s.filters.priceMin && r.filters.priceMax == s.filters.priceMax
    ensures r.products == s.products && r.total == s.total
  {
    s.(ai := AiOff, filters := s.filters.(keyword := "", page := 1))
  }

  /** The state after one event, before the effect runs. */
  function Apply(s: Listing, e: Event): (r: Listing)
    ensures e.PressEnter? || e.CategoriesChanged? || e.PriceReleased? ==> r.ai == AiOff && r.filters.page == 1
    ensures e.CategoriesChanged? ==> r.filters == s.filters.(category := e.checked, page := 1)
    ensures e.PressEnter? || e.PriceReleased? ==> r.filters == s.filters.(page := 1)
    ensures e.KeywordTyped? ==> r.filters == s.filters.(keyword := e.text) && r.ai == s.ai
    ensures e.PriceMoved? ==> r.filters == s.filters.(priceMin := e.low, priceMax := e.high) && r.ai == s.ai
    ensures e.PageChanged? ==> r.filters == s.filters.(page := e.page) && r.ai == s.ai
    ensures e.ResetSearch? ==> r == Reset(s)
    ensures e.ImageSearched? && e.search.Thrown? ==> r == Reset(s)
    ensures e.ImageSearched? && e.search.Returned? && !e.search.body.success ==> r == s
    ensures e.ImageSearched? && e.search.Returned? && e.search.body.success ==>
      r.ai.active && r.filters == s.filters &&
      r.ai.detected == (if Truthy(e.search.body.keyword) then [e.search.body.keyword.value] else [Undetected]) &&
      r.ai.keyword == OrElse(e.search.body.keyword, "")
    ensures e.ProductsLoaded? ==> r.filters == s.filters && r.ai == s.ai
    ensures !e.ProductsLoaded? && !(e.ImageSearched? && e.search.Returned?) ==> r.products == s.products && r.total == s.total
  {
    match e
      case KeywordTyped(text) => s.(filters := s.filters.(keyword := text))
      case PressEnter => s.(ai := AiOff, filters := s.filters.(page := 1))
      case CategoriesChanged(checked) => s.(ai := AiOff, filters := s.filters.(category := checked, page := 1))
      case PriceMoved(low, high) => s.(filters := s.filters.(priceMin := low, priceMax := high))
      case PriceReleased => s.(ai := AiOff, filters := s.filters.(page := 1))
      case PageChanged(page) => s.(filters := s.filters.(page := page))
      case ResetSearch => Reset(s)
      case ImageSearched(reply) =>
        (match reply
          case Thrown(_) => Reset(s)
          case Returned(body) =>
            if !body.success then s
            else
              var rows := if body.data.Some? then body.data.value else [];
              var total := if body.total.Some? && body.total.value != 0 then body.total.value else |rows|;
              var detected := if Truthy(body.keyword) then [body.keyword.value] else [Undetected];
              s.(products := rows, total := total, ai := AiInfo(true, detected, OrElse(body.keyword, ""))))
      case ProductsLoaded(reply) =>
        match reply
          case Thrown(_) => s
          case Returned(page) =>
            s.(products := if page.data.Some? then page.data.value else [],
               total := if page.total.Some? then page.total.value else 0)
  }

  /** The effect's dependencies changed and image-search mode is off, so the listing is fetched. */
  predicate Fetches(s: Listing, e: Event, r: Listing) {
    (SetsFilters(e) || s.ai.active != r.ai.active) && !r.ai.active
  }

  /** One event: the new state, the listing request the effect issues, and the notification. */
  datatype Transition = Transition(state: Listing, query: Option<Query>, notice: Option<Notice>)

  /** One event and the effect run it causes. */
  function Step(s: Listing, e: Event): (t: Transition)
    ensures t.state == Apply(s, e)
    ensures t.query.Some? <==> Fetches(s, e, t.state)
    ensures t.query.Some? ==> !t.state.ai.active && t.query.value == QueryOf(t.state.filters)
    ensures e.ImageSearched? && e.search.Thrown? ==>
      t.notice == Some(Failure(OrElse(e.search.message, "AI không thể nhận diện hình ảnh này")))
    ensures e.ImageSearched? && e.search.Returned? && e.search.body.success ==>
      t.notice == Some(Success("AI đã nhận diện xong!"))
    ensures e.ProductsLoaded? && e.listing.Thrown? ==> t.notice == Some(Failure("Lỗi khi tải sản phẩm"))
  {
    var r := Apply(s, e);
    var query := if Fetches(s, e, r) then Some(QueryOf(r.filters)) else None;
    var notice :=
      match e
        case ImageSearched(Thrown(m)) => Some(Failure(OrElse(m, "AI không thể nhận diện hình ảnh này")))
        case ImageSearched(Returned(body)) => if body.success then Some(Success("AI đã nhận diện xong!")) else None
        case ProductsLoaded(Thrown(_)) => Some(Failure("Lỗi khi tải sản phẩm"))
        case _ => None;
    Transition(r, query, notice)
  }

  /** While image-search results are shown, typing, moving the slider and paging fetch nothing. */
  lemma AiModeHoldsListing(s: Listing, e: Event)
    requires s.ai.active
    requires e.KeywordTyped? || e.PriceMoved? || e.PageChanged? || e.ProductsLoaded?
    ensures Step(s, e).query == None
    ensures Step(s, e).state.ai.active
  {
  }

  /** Every filter-panel event issues a request when image-search mode is off. */
  lemma FilterEventsFetchWhenAiOff(s: Listing, e: Event)
    requires !s.ai.active && SetsFilters(e)
    ensures Step(s, e).query == Some(QueryOf(Step(s, e).state.filters))
  {
  }

  /** Pagination is shown outside image-search mode when there is more than one page. */
  predicate ShowPagination(s: Listing) {
    !s.ai.active && s.total > s.filters.pageSize
  }

  /** A successful image search hides the pagination, whatever the total it reports. */
  lemma ImageResultsHidePagination(s: Listing, reply: AiReply)
    requires reply.success
    ensures !ShowPagination(Step(s, ImageSearched(Returned(reply))).state)
  {
  }

  /**
   * Once the mount request has answered, pagination shows exactly when the
   * reported total exceeds one page of twelve.
   */
  lemma MountPagination(p: Page)
    ensures ShowPagination(Step(Initial, ProductsLoaded(Returned(p))).state) <==> p.total.Some? && p.total.value > 12
  {
  }

  /**
   * Resetting the search brings pagination back for the total already
   * loaded, and a failed image search does the same.
   */
  lemma ResetRestoresPagination(s: Listing, e: Event)
    requires e.ResetSearch? || (e.ImageSearched? && e.search.Thrown?)
    ensures ShowPagination(Step(s, e).state) <==> s.total > s.filters.pageSize
  {
  }

  /** The event can come from the widgets on the page: pages from 1 and slider values within its range. */
  predicate Possible(e: Event) {
    match e
      case PageChanged(p) => p >= 1
      case PriceMoved(low, high) => 0 <= low <= high <= PriceCap
      case _ => true
  }

  /** The filter record stays within what the widgets can produce. */
  predicate Valid(s: Listing) {
    s.filters.page >= 1 && s.filters.pageSize == 12 && 0 <= s.filters.priceMin <= s.filters.priceMax <= PriceCap
  }

  /** The request a transition issues, as a sequence of at most one. */
  function Emitted(t: Transition): (qs: seq<Query>)
    ensures |qs| <= 1
  {
    if t.query.Some? then [t.query.value] else []
  }

  /** One event as a step of a run: the next listing state and the requests it issues. */
  function Effects(s: Listing, e: Event): (Listing, seq<Query>) {
    var t := Step(s, e);
    (t.state, Emitted(t))
  }

  /** A run of events on the listing page: at most one request per event. */
  function Run(s: Listing, es: seq<Event>): (r: (Listing, seq<Query>))
    ensures |r.1| <= |es|
  {
    RunOfAtMostOne(Effects, s, es);
    RunOf(Effects, s, es)
  }

  /** Running two sequences of events one after the other is running their concatenation. */
  lemma RunAppend(s: Listing, a: seq<Event>, b: seq<Event>)
    ensures var first := Run(s, a);
            var second := Run(first.0, b);
            Run(s, a + b) == (second.0, first.1 + second.1)
  {
    RunOfAppend(Effects, s, a, b);
  }

  /** The mount fetch: the page starts outside image-search mode, so the first effect run fetches. */
  function MountQuery(): (q: Query)
    ensures q.page == 1 && q.pageSize == 12 && q.search == "" && q.categories == ""
    ensures q.priceMin == 0 && q.priceMax == PriceCap
  {
    QueryOf(InitialFilters)
  }

  /**
   * Over any run of possible events the filters stay valid, and every request
   * asks for a page from 1 with twelve products per page.
   */
  lemma {:induction false} RunKeepsValid(s: Listing, es: seq<Event>)
    requires Valid(s)
    requires forall i :: 0 <= i < |es| ==> Possible(es[i])
    ensures Valid(Run(s, es).0)
    ensures forall i :: 0 <= i < |Run(s, es).1| ==> Sane(Run(s, es).1[i])
    decreases |es|
  {
    if es != [] {
      var t := Step(s, es[0]);
      assert Possible(es[0]);
      StepKeepsValid(s, es[0]);
      RunKeepsValid(t.state, es[1..]);
      RunOfCons(Effects, s, es);
      SaneAppend(Emitted(t), Run(t.state, es[1..]).1);
    }
  }

  /** A request for a page from 1, twelve products per page, and a price range inside the slider's. */
  predicate Sane(q: Query) {
    q.page >= 1 && q.pageSize == 12 && 0 <= q.priceMin <= q.priceMax <= PriceCap
  }

  /** One possible event keeps the filters valid, and a request it issues is sane. */
  lemma StepKeepsValid(s: Listing, e: Event)
    requires Valid(s) && Possible(e)
    ensures Valid(Step(s, e).state)
    ensures forall i :: 0 <= i < |Emitted(Step(s, e))| ==> Sane(Emitted(Step(s, e))[i])
  {
  }

  /** Two sequences of sane requests concatenate to one. */
  lemma SaneAppend(a: seq<Query>, b: seq<Query>)
    requires forall i :: 0 <= i < |a| ==> Sane(a[i])
    requires forall i :: 0 <= i < |b| ==> Sane(b[i])
    ensures forall i :: 0 <= i < |a + b| ==> Sane((a + b)[i])
  {
  }
}
