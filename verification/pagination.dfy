/** The pagination envelope that the job listing and the post feed compute
    from `page`, `limit` and the number of matching documents `T`:
    `skip = (page - 1) * limit`, the store returns at most `limit` documents
    after the first `skip`, and the envelope reports the current page, the
    page count `ceil(T / limit)`, `hasNext` and `hasPrev`. */
module Pagination {
  import opened Common

  datatype PageInfo = PageInfo(current: int, total: int, hasNext: bool, hasPrev: bool)

  const DefaultPage := 1
  const DefaultLimit := 10

  /** `const { page = 1, limit = 10 } = req.query`: an absent parameter
      takes its default, a present one is used as given. */
  function OrDefault(o: Option<int>, default: int): (r: int)
    ensures o.None? ==> r == default
    ensures o.Some? ==> r == o.value
  {
    if o.Some? then o.value else default
  }

  /** A usable page request: whatever is given is at least 1. */
  predicate PageParams(page: Option<int>, limit: Option<int>) {
    (page.Some? ==> page.value >= 1) && (limit.Some? ==> limit.value >= 1)
  }

  /** Documents skipped before the requested page; never negative for a
      page of at least 1. */
  function Skip(page: int, limit: int): (r: nat)
    requires page >= 1 && limit >= 1
    ensures r + limit == page * limit
  {
    MulStep(page, limit);
    (page - 1) * limit
  }

  lemma MulStep(page: int, limit: int)
    requires page >= 1 && limit >= 1
    ensures (page - 1) * limit >= 0
    ensures (page - 1) * limit + limit == page * limit
  {
  }

  /** `Math.ceil(n / d)`: the least whole number of pages of size `d` that
      hold `n` documents. */
  function CeilDiv(n: nat, d: int): (r: nat)
    requires d >= 1
    ensures n <= r * d
    ensures r == 0 || (r - 1) * d < n
  {
    var q := (n + d - 1) / d;
    DivBounds(n + d - 1, d);
    q
  }

  lemma DivBounds(x: nat, d: int)
    requires d >= 1
    ensures (x / d) * d <= x < (x / d) * d + d
  {
  }

  /** What `find(...).skip(skip).limit(limit)` returns from the matching
      documents in store order: the run of at most `limit` documents that
      starts at position `skip`. */
  function Window<T>(items: seq<T>, skip: nat, limit: nat): (r: seq<T>)
    ensures |r| <= limit
    ensures |r| == if skip >= |items| then 0
                   else if |items| - skip < limit then |items| - skip else limit
    ensures forall k :: 0 <= k < |r| ==> skip + k < |items| && r[k] == items[skip + k]
  {
    if skip >= |items| then []
    else if |items| - skip < limit then items[skip..]
    else items[skip..skip + limit]
  }

  /** The `pagination` object of a listing reply, given the number of
      matching documents `total` and the number `returned` on this page. */
  function Envelope(page: int, limit: int, total: nat, returned: nat): (r: PageInfo)
    requires page >= 1 && limit >= 1
    ensures r.current == page && (r.hasPrev <==> page >= 2)
    ensures total <= r.total * limit
  {
    PageInfo(page, CeilDiv(total, limit), Skip(page, limit) + returned < total, page > 1)
  }

  /** The page count is the ceiling of `total / limit`, and there is a next
      page exactly when some matching document lies beyond this page. */
  lemma {:induction false} EnvelopeMeaning<T>(items: seq<T>, page: int, limit: int)
    requires page >= 1 && limit >= 1
    ensures var w := Window(items, Skip(page, limit), limit);
            var info := Envelope(page, limit, |items|, |w|);
            && info.current == page
            && (info.total - 1) * limit < |items| <= info.total * limit
            && (info.hasNext <==> page * limit < |items|)
            && (info.hasPrev <==> page >= 2)
  {
    var w := Window(items, Skip(page, limit), limit);
    var info := Envelope(page, limit, |items|, |w|);
    if info.total == 0 {
      assert (info.total - 1) * limit == -limit;
    }
  }

  /** A page that reports a next page is full. */
  lemma FullPageBeforeNext<T>(items: seq<T>, page: int, limit: int)
    requires page >= 1 && limit >= 1
    requires Envelope(page, limit, |items|, |Window(items, Skip(page, limit), limit)|).hasNext
    ensures |Window(items, Skip(page, limit), limit)| == limit
  {
  }

  /** `hasNext` holds exactly on the pages before the last one. */
  lemma {:induction false} HasNextIffBeforeLastPage<T>(items: seq<T>, page: int, limit: int)
    requires page >= 1 && limit >= 1
    ensures var info := Envelope(page, limit, |items|, |Window(items, Skip(page, limit), limit)|);
            info.hasNext <==> page < info.total
  {
    EnvelopeMeaning(items, page, limit);
    var q := CeilDiv(|items|, limit);
    if page < q {
      MulMonotone(page, q - 1, limit);
    } else {
      MulMonotone(q, page, limit);
    }
  }

  lemma MulMonotone(a: int, b: int, c: int)
    requires a <= b && c >= 0
    ensures a * c <= b * c
  {
    assert b * c - a * c == (b - a) * c;
  }

  /** Without `page` and `limit` a listing shows its first ten matches
      (all of them when there are fewer) as page 1 with no previous page,
      and it has a next page exactly when there are more than ten. */
  lemma DefaultsShowFirstTen<T>(items: seq<T>)
    ensures var page := OrDefault(None, DefaultPage);
            var limit := OrDefault(None, DefaultLimit);
            var w := Window(items, Skip(page, limit), limit);
            var info := Envelope(page, limit, |items|, |w|);
            && w == (if |items| <= 10 then items else items[..10])
            && info.current == 1 && !info.hasPrev
            && (info.hasNext <==> |items| > 10)
  {
  }

  /** The worked example: 25 matches, 10 per page, page 3. */
  lemma ThirdOfTwentyFive(items: seq<int>)
    requires |items| == 25
    ensures Skip(3, 10) == 20
    ensures |Window(items, 20, 10)| == 5
    ensures Envelope(3, 10, 25, 5) == PageInfo(3, 3, false, true)
  {
  }
}
