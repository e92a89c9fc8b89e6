/** The unauthenticated `GET /products` handler: a filter built from optional
    query parameters, then one page of the matching documents and their count. */
module Listing {
  import opened Js
  import opened Catalog

  /** Page numbers and page sizes are positive. */
  type Pos = n: nat | n >= 1 witness 1

  const DefaultPage: Pos := 1
  const DefaultLimit: Pos := 10

  /** The query parameters the handler reads. */
  datatype ListQuery = ListQuery(
    category: Option<string>,
    page: Option<Pos>,
    limit: Option<Pos>,
    search: Option<string>)

  /** The store query: an exact category, a name pattern, or neither. */
  datatype Filter = Filter(category: Option<string>, namePattern: Option<string>)

  datatype ListResponse = ListResponse(
    products: seq<Doc>,
    totalPages: nat,
    currentPage: Pos,
    total: nat)

  /** The handler's answer, or the failure it hands to the error handler when
      a store call throws. */
  datatype ListOutcome = Listed(response: ListResponse) | Internal

  function Min(a: int, b: int): int { if a <= b then a else b }

  function PageParam(q: ListQuery): Pos {
    if q.page.Some? then q.page.value else DefaultPage
  }

  function LimitParam(q: ListQuery): Pos {
    if q.limit.Some? then q.limit.value else DefaultLimit
  }

  /** The filter the handler builds for a query. */
  function QueryFilter(q: ListQuery): Filter {
    Filter(
      if Truthy(Param(q.category)) then q.category else None,
      if Truthy(Param(q.search)) then q.search else None)
  }

  /** Whether a document satisfies every criterion of the filter. */
  predicate Admits(f: Filter, m: Matcher, d: Doc) {
    && (f.category.Some? ==> d.fields.category == Str(f.category.value))
    && (f.namePattern.Some? ==> m(f.namePattern.value, d.fields.name))
  }

  /** `Product.find(query)` over the store's documents, in store order. */
  function Select(docs: seq<Doc>, f: Filter, m: Matcher): (r: seq<Doc>)
    ensures |r| <= |docs|
    // each admitted document as often as it is stored, and nothing else
    ensures forall d :: multiset(r)[d] == if Admits(f, m, d) then multiset(docs)[d] else 0
    ensures forall d :: d in r <==> d in docs && Admits(f, m, d)
  {
    if docs == [] then []
    else
      var rest := Select(docs[1..], f, m);
      assert docs == [docs[0]] + docs[1..];
      if Admits(f, m, docs[0]) then
        assert multiset([docs[0]] + rest) == multiset([docs[0]]) + multiset(rest);
        [docs[0]] + rest
      else
        rest
  }

  /** Selection keeps the store's order: selecting from two runs of documents
      is selecting from each and putting the results one after the other. */
  lemma {:induction false} SelectKeepsOrder(a: seq<Doc>, b: seq<Doc>, f: Filter, m: Matcher)
    ensures Select(a + b, f, m) == Select(a, f, m) + Select(b, f, m)
  {
    if a == [] {
      assert a + b == b;
    } else {
      assert (a + b)[0] == a[0];
      assert (a + b)[1..] == a[1..] + b;
      SelectKeepsOrder(a[1..], b, f, m);
    }
  }

  /** A cursor's `.skip(k)` followed by `.limit(n)`, as the store applies them
      whatever order they are chained in. */
  function Window<T>(s: seq<T>, skip: nat, limit: Pos): (r: seq<T>)
    ensures r == s[Min(skip, |s|)..Min(skip + limit, |s|)]
  {
    var rest := if skip < |s| then s[skip..] else [];
    if limit < |rest| then rest[..limit] else rest
  }

  /** Page `page` of `s` when pages hold `limit` items. */
  function PageOf<T>(s: seq<T>, page: Pos, limit: Pos): seq<T> {
    s[Min((page - 1) * limit, |s|)..Min(page * limit, |s|)]
  }

  /** `Math.ceil(total / limit)`. */
  function PageCount(total: nat, limit: Pos): (r: nat)
    ensures (r - 1) * limit < total <= r * limit
    ensures (r as real) - 1.0 < (total as real) / (limit as real) <= r as real
  {
    var r := (total + limit - 1) / limit;
    CeilBounds(total, limit, r);
    r
  }

  lemma CeilBounds(total: nat, limit: Pos, r: nat)
    requires r == (total + limit - 1) / limit
    ensures (r - 1) * limit < total <= r * limit
    ensures (r as real) - 1.0 < (total as real) / (limit as real) <= r as real
  {
    var rem := (total + limit - 1) % limit;
    assert total + limit - 1 == r * limit + rem;
    assert (r - 1) * limit == r * limit - limit;
    var t, l := total as real, limit as real;
    var x := t / l;
    assert x * l == t;
    assert ((r - 1) * limit) as real == ((r as real) - 1.0) * l;
    assert (r * limit) as real == (r as real) * l;
    ScaleLess((r as real) - 1.0, x, l);
    ScaleAtMost(x, r as real, l);
  }

  lemma ScaleLess(a: real, b: real, l: real)
    requires l > 0.0 && a * l < b * l
    ensures a < b
  {
  }

  lemma ScaleAtMost(a: real, b: real, l: real)
    requires l > 0.0 && a * l <= b * l
    ensures a <= b
  {
  }

  /** Multiplying by a page size keeps the order of page numbers. */
  lemma ScaleMono(a: int, b: int, limit: Pos)
    requires a <= b
    ensures a * limit <= b * limit
  {
  }

  /** Page `page` starts where page `page - 1` ends. */
  lemma PageEnd(page: Pos, limit: Pos)
    ensures (page - 1) * limit + limit == page * limit
    ensures 0 <= (page - 1) * limit
  {
  }

  /** The handler: build the query key by key, fetch one page and count the
      documents that match the same query. `storeFails` says that one of the
      two store calls throws; the handler then forwards the error. */
  method ListProducts(docs: seq<Doc>, q: ListQuery, m: Matcher, storeFails: bool) returns (o: ListOutcome)
    ensures storeFails <==> o == Internal
    ensures o.Listed? ==>
      o.response.products == PageOf(Select(docs, QueryFilter(q), m), PageParam(q), LimitParam(q))
    ensures o.Listed? ==> o.response.total == |Select(docs, QueryFilter(q), m)|
    ensures o.Listed? ==> o.response.totalPages == PageCount(o.response.total, LimitParam(q))
    ensures o.Listed? ==> o.response.currentPage == PageParam(q)
    // page 1 at 10 per page when neither parameter is given
    ensures o.Listed? && q.page.None? ==> o.response.currentPage == 1
    ensures o.Listed? && q.page.None? && q.limit.None? ==>
      o.response.products == Select(docs, QueryFilter(q), m)[..Min(10, o.response.total)]
  {
    var page: Pos := if q.page.Some? then q.page.value else DefaultPage;
    var limit: Pos := if q.limit.Some? then q.limit.value else DefaultLimit;
    var query := Filter(None, None);
    if Truthy(Param(q.category)) {
      query := query.(category := q.category);
    }
    if Truthy(Param(q.search)) {
      query := query.(namePattern := q.search);
    }
    assert query == QueryFilter(q);
    PageEnd(page, limit);
    if storeFails {
      return Internal;
    }
    var matching := Select(docs, query, m);
    var products := Window(matching, (page - 1) * limit, limit);
    var total := |Select(docs, query, m)|;
    assert products == PageOf(matching, page, limit);
    o := Listed(ListResponse(products, PageCount(total, limit), page, total));
  }

  /** The filter has a category key exactly when the category parameter is
      truthy, and a name pattern exactly when the search parameter is. */
  lemma QueryFilterKeys(q: ListQuery)
    ensures QueryFilter(q).category.Some? <==> q.category.Some? && q.category.value != ""
    ensures QueryFilter(q).category.Some? ==> QueryFilter(q).category == q.category
    ensures QueryFilter(q).namePattern.Some? <==> q.search.Some? && q.search.value != ""
    ensures QueryFilter(q).namePattern.Some? ==> QueryFilter(q).namePattern == q.search
  {
  }

  /** With neither a category nor a search the filter is empty, and the empty
      filter selects every document, in order. */
  lemma {:induction false} EmptyFilterSelectsAll(docs: seq<Doc>, q: ListQuery, m: Matcher)
    requires !Truthy(Param(q.category)) && !Truthy(Param(q.search))
    ensures QueryFilter(q) == Filter(None, None)
    ensures Select(docs, QueryFilter(q), m) == docs
  {
    if docs != [] {
      EmptyFilterSelectsAll(docs[1..], q, m);
      assert docs == [docs[0]] + docs[1..];
    }
  }

  /** The pages 1 to n, concatenated. */
  function Pages<T>(s: seq<T>, limit: Pos, n: nat): seq<T> {
    if n == 0 then [] else Pages(s, limit, n - 1) + PageOf(s, n, limit)
  }

  /** The first n pages are the first n * limit items, without gap or overlap. */
  lemma {:induction false} PagesArePrefix<T>(s: seq<T>, limit: Pos, n: nat)
    ensures Pages(s, limit, n) == s[..Min(n * limit, |s|)]
  {
    if n > 0 {
      PagesArePrefix(s, limit, n - 1);
      assert (n - 1) * limit <= n * limit;
      var a := Min((n - 1) * limit, |s|);
      var b := Min(n * limit, |s|);
      assert s[..a] + s[a..b] == s[..b];
    }
  }

  /** `totalPages` pages cover the whole sequence. */
  lemma PagesCoverAll<T>(s: seq<T>, limit: Pos)
    ensures Pages(s, limit, PageCount(|s|, limit)) == s
  {
    PagesArePrefix(s, limit, PageCount(|s|, limit));
  }

  /** Every page before the last is full, the last holds the rest (at least
      one item), and the pages after it are empty. */
  lemma PageSizes<T>(s: seq<T>, page: Pos, limit: Pos)
    ensures page < PageCount(|s|, limit) ==> |PageOf(s, page, limit)| == limit
    ensures page == PageCount(|s|, limit) ==>
      |PageOf(s, page, limit)| == |s| - (page - 1) * limit > 0
    ensures page > PageCount(|s|, limit) ==> PageOf(s, page, limit) == []
  {
    var n := PageCount(|s|, limit);
    PageEnd(page, limit);
    if page < n {
      ScaleMono(page, n - 1, limit);
    } else if page > n {
      ScaleMono(n, page - 1, limit);
    }
  }

  /** Two different pages take disjoint parts of the sequence: together they
      hold no item more often than the sequence does. */
  lemma PagesDisjoint<T>(s: seq<T>, p1: Pos, p2: Pos, limit: Pos)
    requires p1 < p2
    ensures multiset(PageOf(s, p1, limit)) + multiset(PageOf(s, p2, limit)) <= multiset(s)
  {
    ScaleMono(p1, p2 - 1, limit);
    PageEnd(p1, limit);
    PageEnd(p2, limit);
    SlicesDisjoint(s, Min((p1 - 1) * limit, |s|), Min(p1 * limit, |s|),
                      Min((p2 - 1) * limit, |s|), Min(p2 * limit, |s|));
  }

  lemma SlicesDisjoint<T>(s: seq<T>, a: nat, b: nat, c: nat, d: nat)
    requires a <= b <= c <= d <= |s|
    ensures multiset(s[a..b]) + multiset(s[c..d]) <= multiset(s)
  {
    assert s[..b] == s[..a] + s[a..b];
    assert s[b..] == s[b..c] + s[c..d] + s[d..];
    assert s == s[..b] + s[b..];
  }

  /** 25 matches at 10 per page: three pages of 10, 10 and 5 items. */
  lemma TwentyFivePerTen<T>(s: seq<T>)
    requires |s| == 25
    ensures PageCount(|s|, 10) == 3
    ensures PageOf(s, 1, 10) == s[0..10] && PageOf(s, 2, 10) == s[10..20] && PageOf(s, 3, 10) == s[20..25]
    ensures |PageOf(s, 1, 10)| == 10 && |PageOf(s, 2, 10)| == 10 && |PageOf(s, 3, 10)| == 5
  {
  }
}
