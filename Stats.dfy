/** The stats router: the aggregate statistics of the collection and the
    time-to-live cache that serves them. */
module Stats {
  import opened Common
  import opened Items

  /** What GET /api/stats answers. Prices are in cents; `averagePrice` is the
      mean rounded to the nearest cent, halves rounded up (`Math.round`). */
  datatype Stats = Stats(total: nat, averagePrice: int, maxPrice: int, minPrice: int,
                         categories: nat, categoryBreakdown: map<string, nat>)

  // ---------------------------------------------------------------------------
  // Folds over the collection

  /** `items.reduce((acc, cur) => acc + cur.price, 0)`. */
  function PriceSum(items: seq<Item>): int
  {
    if items == [] then 0 else items[0].price + PriceSum(items[1..])
  }

  /** `Math.max(...items.map(item => item.price))` on a non-empty collection. */
  function MaxPrice(items: seq<Item>): (r: int)
    requires |items| > 0
    ensures forall x :: x in items ==> x.price <= r
    ensures exists x :: x in items && x.price == r
  {
    if |items| == 1 then items[0].price
    else
      assert forall x :: x in items ==> x == items[0] || x in items[1..];
      Max(items[0].price, MaxPrice(items[1..]))
  }

  /** `Math.min(...items.map(item => item.price))` on a non-empty collection. */
  function MinPrice(items: seq<Item>): (r: int)
    requires |items| > 0
    ensures forall x :: x in items ==> r <= x.price
    ensures exists x :: x in items && x.price == r
  {
    if |items| == 1 then items[0].price
    else
      assert forall x :: x in items ==> x == items[0] || x in items[1..];
      Min(items[0].price, MinPrice(items[1..]))
  }

  /** `Math.round(sum / total)`: the integer nearest to the mean, a half
      rounded up. */
  function RoundedAverage(sum: int, total: nat): (r: int)
    requires total > 0
    ensures 2 * total * r <= 2 * sum + total < 2 * total * (r + 1)
  {
    (2 * sum + total) / (2 * total)
  }

  /** `items.map(item => item.category)`. */
  function Categories(items: seq<Item>): (r: seq<string>)
    ensures |r| == |items|
    ensures forall i :: 0 <= i < |items| ==> r[i] == items[i].category
  {
    seq(|items|, i requires 0 <= i < |items| => items[i].category)
  }

  ghost predicate NoDuplicates(s: seq<string>)
  {
    forall i, j :: 0 <= i < j < |s| ==> s[i] != s[j]
  }

  /** `[...new Set(xs)]`: each value once, in the order it is first seen. */
  function Distinct(xs: seq<string>): (r: seq<string>)
    ensures NoDuplicates(r)
    ensures forall c :: c in r <==> c in xs
  {
    if xs == [] then []
    else
      var init, last := xs[..|xs| - 1], xs[|xs| - 1];
      assert xs == init + [last];
      var d := Distinct(init);
      if last in d then d else d + [last]
  }

  /** The distinct categories of the collection, in first-seen order. */
  function CategoryList(items: seq<Item>): seq<string>
  {
    Distinct(Categories(items))
  }

  /** `items.filter(item => item.category === c).length`. */
  function Count(items: seq<Item>, c: string): (r: nat)
    ensures r <= |items|
  {
    if items == [] then 0 else (if items[0].category == c then 1 else 0) + Count(items[1..], c)
  }

  /** No item has category `c` exactly when the count is 0, and every item
      has it exactly when the count is the collection size. */
  lemma {:induction false} CountNoneOrAll(items: seq<Item>, c: string)
    ensures Count(items, c) == 0 <==> forall x :: x in items ==> x.category != c
    ensures Count(items, c) == |items| <==> forall x :: x in items ==> x.category == c
  {
    if items != [] {
      CountNoneOrAll(items[1..], c);
      assert forall x :: x in items <==> x == items[0] || x in items[1..];
    }
  }

  /** `cats.reduce((acc, c) => { acc[c] = Count(items, c); return acc }, {})`. */
  function Breakdown(items: seq<Item>, cats: seq<string>): (r: map<string, nat>)
    ensures r.Keys == set c | c in cats
    ensures forall c :: c in r ==> r[c] == Count(items, c)
  {
    if cats == [] then map[]
    else
      var init, last := cats[..|cats| - 1], cats[|cats| - 1];
      assert cats == init + [last];
      Breakdown(items, init)[last := Count(items, last)]
  }

  /** `calculateStats`: all zero and an empty breakdown for an empty
      collection (no division happens then); otherwise the count, the rounded
      mean, the price extremes and the per-category counts. */
  function CalculateStats(items: seq<Item>): (r: Stats)
    ensures r.total == |items|
    ensures |items| == 0 ==> r == Stats(0, 0, 0, 0, 0, map[])
    ensures |items| > 0 ==> forall x :: x in items ==> r.minPrice <= x.price <= r.maxPrice
    ensures |items| > 0 ==> ((exists x :: x in items && x.price == r.minPrice)
                          && (exists x :: x in items && x.price == r.maxPrice))
    ensures r.categoryBreakdown.Keys == set x | x in items :: x.category
    ensures forall c :: c in r.categoryBreakdown ==> r.categoryBreakdown[c] == Count(items, c)
    ensures r.categories == |r.categoryBreakdown.Keys|
    ensures |items| > 0 ==> r.averagePrice == RoundedAverage(PriceSum(items), |items|)
  {
    var total := |items|;
    var cats := CategoryList(items);
    DistinctCardinality(cats);
    assert (set c | c in cats) == set x | x in items :: x.category by {
      forall c | c in cats ensures exists x :: x in items && x.category == c {
        var i :| 0 <= i < |items| && Categories(items)[i] == c;
        assert items[i] in items;
      }
      forall x | x in items ensures x.category in cats {
        var i :| 0 <= i < |items| && items[i] == x;
        assert Categories(items)[i] == x.category;
      }
    }
    Stats(total,
          if total > 0 then RoundedAverage(PriceSum(items), total) else 0,
          if total > 0 then MaxPrice(items) else 0,
          if total > 0 then MinPrice(items) else 0,
          |cats|,
          Breakdown(items, cats))
  }

  // ---------------------------------------------------------------------------
  // Properties of the statistics

  /** A sequence without duplicates has as many distinct values as entries. */
  lemma {:induction false} DistinctCardinality(s: seq<string>)
    requires NoDuplicates(s)
    ensures |set c | c in s| == |s|
  {
    if s != [] {
      var init, last := s[..|s| - 1], s[|s| - 1];
      assert s == init + [last];
      DistinctCardinality(init);
      assert (set c | c in s) == (set c | c in init) + {last};
      forall i | 0 <= i < |init| ensures init[i] != last {
        assert init[i] == s[i];
      }
    }
  }

  /** The mean lies between the cheapest and the dearest price. */
  lemma AverageWithinRange(items: seq<Item>)
    requires |items| > 0
    ensures var r := CalculateStats(items); r.minPrice <= r.averagePrice <= r.maxPrice
  {
    var n, s := |items|, PriceSum(items);
    var lo, hi := MinPrice(items), MaxPrice(items);
    PriceSumAtLeast(items, lo);
    PriceSumAtMost(items, hi);
    RoundedAverageBetween(s, n, lo, hi);
  }

  /** A rounded mean of values between `lo` and `hi` is between them too. */
  lemma RoundedAverageBetween(s: int, n: nat, lo: int, hi: int)
    requires n > 0 && n * lo <= s <= n * hi
    ensures lo <= RoundedAverage(s, n) <= hi
  {
    var a := RoundedAverage(s, n);
    // 2n*lo + n <= 2s + n < 2n*(a + 1), so lo < a + 1
    assert 2 * n * lo < 2 * n * (a + 1);
    CancelFactor(lo, a + 1, 2 * n);
    // 2n*a <= 2s + n <= 2n*hi + n < 2n*(hi + 1), so a < hi + 1
    assert 2 * n * a < 2 * n * (hi + 1);
    CancelFactor(a, hi + 1, 2 * n);
  }

  lemma CancelFactor(a: int, b: int, k: int)
    requires k > 0 && k * a < k * b
    ensures a < b
  {
    assert k * (b - a) == k * b - k * a > 0;
  }

  lemma {:induction false} PriceSumAtLeast(items: seq<Item>, lo: int)
    requires forall x :: x in items ==> lo <= x.price
    ensures |items| * lo <= PriceSum(items)
  {
    if items != [] {
      assert items[0] in items;
      assert forall x :: x in items[1..] ==> x in items;
      PriceSumAtLeast(items[1..], lo);
      assert |items| * lo == lo + (|items| - 1) * lo;
    }
  }

  lemma {:induction false} PriceSumAtMost(items: seq<Item>, hi: int)
    requires forall x :: x in items ==> x.price <= hi
    ensures PriceSum(items) <= |items| * hi
  {
    if items != [] {
      assert items[0] in items;
      assert forall x :: x in items[1..] ==> x in items;
      PriceSumAtMost(items[1..], hi);
      assert |items| * hi == hi + (|items| - 1) * hi;
    }
  }

  /** The sum of `m[k]` over the keys `keys`, each counted as often as listed. */
  function SumValues(m: map<string, nat>, keys: seq<string>): int
    requires forall k :: k in keys ==> k in m
  {
    if keys == [] then 0 else m[keys[0]] + SumValues(m, keys[1..])
  }

  /** The breakdown's counts sum to the total: `CategoryList` lists every key
      of the breakdown exactly once, and the counts over it add up to `total`. */
  lemma BreakdownSumsToTotal(items: seq<Item>)
    ensures var r := CalculateStats(items);
      && NoDuplicates(CategoryList(items))
      && (forall c :: c in CategoryList(items) <==> c in r.categoryBreakdown)
      && SumValues(r.categoryBreakdown, CategoryList(items)) == r.total
  {
    var r := CalculateStats(items);
    var cats := CategoryList(items);
    forall c ensures c in cats <==> c in r.categoryBreakdown {
      if c in cats {
        var i :| 0 <= i < |items| && Categories(items)[i] == c;
        assert items[i] in items;
      }
    }
    SumValuesIsSumCounts(r.categoryBreakdown, items, cats);
    forall x | x in items ensures x.category in cats {
      var i :| 0 <= i < |items| && items[i] == x;
      assert Categories(items)[i] == x.category;
    }
    SumCountsCover(items, cats);
  }

  /** The sum of `Count(items, c)` over the listed categories. */
  function SumCounts(items: seq<Item>, cats: seq<string>): nat
  {
    if cats == [] then 0 else Count(items, cats[0]) + SumCounts(items, cats[1..])
  }

  /** How many entries of `cats` equal `c`. */
  function Occurrences(cats: seq<string>, c: string): nat
  {
    if cats == [] then 0 else (if cats[0] == c then 1 else 0) + Occurrences(cats[1..], c)
  }

  lemma {:induction false} SumValuesIsSumCounts(m: map<string, nat>, items: seq<Item>, cats: seq<string>)
    requires forall k :: k in cats ==> k in m && m[k] == Count(items, k)
    ensures SumValues(m, cats) == SumCounts(items, cats)
  {
    if cats != [] {
      assert cats[0] in cats;
      assert forall k :: k in cats[1..] ==> k in cats;
      SumValuesIsSumCounts(m, items, cats[1..]);
    }
  }

  /** When the listed categories are distinct and include every item's
      category, their counts add up to the number of items. */
  lemma {:induction false} SumCountsCover(items: seq<Item>, cats: seq<string>)
    requires NoDuplicates(cats)
    requires forall x :: x in items ==> x.category in cats
    ensures SumCounts(items, cats) == |items|
  {
    if items == [] {
      SumCountsEmpty(cats);
    } else {
      var x, rest := items[0], items[1..];
      assert items == [x] + rest;
      SumCountsCons(x, rest, cats);
      assert x in items;
      OccurrencesOnce(cats, x.category);
      assert forall y :: y in rest ==> y in items;
      SumCountsCover(rest, cats);
    }
  }

  lemma {:induction false} SumCountsEmpty(cats: seq<string>)
    ensures SumCounts([], cats) == 0
  {
    if cats != [] {
      SumCountsEmpty(cats[1..]);
    }
  }

  lemma {:induction false} SumCountsCons(x: Item, rest: seq<Item>, cats: seq<string>)
    ensures SumCounts([x] + rest, cats) == Occurrences(cats, x.category) + SumCounts(rest, cats)
  {
    if cats != [] {
      assert ([x] + rest)[1..] == rest;
      SumCountsCons(x, rest, cats[1..]);
    }
  }

  lemma {:induction false} OccurrencesOnce(cats: seq<string>, c: string)
    requires NoDuplicates(cats)
    ensures Occurrences(cats, c) == if c in cats then 1 else 0
  {
    if cats != [] {
      assert NoDuplicates(cats[1..]) by {
        forall i, j | 0 <= i < j < |cats[1..]| ensures cats[1..][i] != cats[1..][j] {
          assert cats[1..][i] == cats[i + 1] && cats[1..][j] == cats[j + 1];
        }
      }
      OccurrencesOnce(cats[1..], c);
      if cats[0] == c {
        forall j | 0 <= j < |cats[1..]| ensures cats[1..][j] != c {
          assert cats[1..][j] == cats[j + 1];
        }
      }
      assert forall k :: k in cats <==> k == cats[0] || k in cats[1..];
    }
  }

  // ---------------------------------------------------------------------------
  // The cache

  /** `CACHE_DURATION`: five minutes, in milliseconds. */
  const CacheDuration: int := 5 * 60 * 1000

  /** The `statsCache` record: the cached statistics and when they were computed. */
  datatype CacheEntry = CacheEntry(data: Option<Stats>, timestamp: Option<int>)

  /** The cache is used when it holds statistics and a truthy timestamp (a
      timestamp of 0 is falsy in JavaScript) less than `CacheDuration` ago. */
  predicate IsHit(e: CacheEntry, now: int)
  {
    e.data.Some? && e.timestamp.Some? && e.timestamp.value != 0
    && now - e.timestamp.value < CacheDuration
  }

  /** One GET /api/stats at time `now`, given what reading the data file
      would give: the next cache entry and the answer. A hit serves the
      stored statistics; a miss computes them from the collection read and
      stamps them with `now`; a failed read leaves the cache as it was. */
  function Serve(e: CacheEntry, now: int, read: Result<seq<Item>>): (r: (CacheEntry, Result<Stats>))
    ensures r.1.Ok? ==> r.0.data == Some(r.1.value)
    ensures r.1.Ok? && now != 0 ==> IsHit(r.0, now)
    ensures r.1.Err? ==> r.0 == e && read.Err? && r.1.error == read.error
    ensures !IsHit(e, now) && read.Err? ==> r == (e, Err(read.error))
    ensures !IsHit(e, now) && read.Ok? ==> r.1 == Ok(CalculateStats(read.value)) && r.0.timestamp == Some(now)
  {
    if IsHit(e, now) then (e, Ok(e.data.value))
    else match read
      case Err(err) => (e, Err(err))
      case Ok(items) =>
        var s := CalculateStats(items);
        (CacheEntry(Some(s), Some(now)), Ok(s))
  }

  /** A hit does not depend on the collection at all. */
  lemma HitIgnoresStore(e: CacheEntry, now: int, read1: Result<seq<Item>>, read2: Result<seq<Item>>)
    requires IsHit(e, now)
    ensures Serve(e, now, read1) == Serve(e, now, read2)
    ensures Serve(e, now, read1) == (e, Ok(e.data.value))
  {
  }

  /** At exactly `CacheDuration` after the timestamp the entry has expired,
      and the request recomputes from the current collection. */
  lemma ExpiresAtDuration(s: Stats, t: int, items: seq<Item>)
    ensures !IsHit(CacheEntry(Some(s), Some(t)), t + CacheDuration)
    ensures Serve(CacheEntry(Some(s), Some(t)), t + CacheDuration, Ok(items))
         == (CacheEntry(Some(CalculateStats(items)), Some(t + CacheDuration)), Ok(CalculateStats(items)))
  {
  }

  /** After an invalidation the next request recomputes whatever the time,
      and answers the statistics of the current collection. */
  lemma InvalidatedRecomputes(now: int, items: seq<Item>)
    ensures Serve(CacheEntry(None, None), now, Ok(items))
         == (CacheEntry(Some(CalculateStats(items)), Some(now)), Ok(CalculateStats(items)))
  {
  }

  /** Two requests less than `CacheDuration` apart, with no invalidation in
      between and a first request at a non-zero time, answer the same
      statistics even if the collection changed, provided the entry the first
      request used is still fresh at the second; the second one is a hit. */
  lemma RepeatWithinDuration(e: CacheEntry, t1: int, t2: int, read1: Result<seq<Item>>, read2: Result<seq<Item>>)
    requires Serve(e, t1, read1).1.Ok?
    requires t1 != 0 && t1 <= t2 && t2 - t1 < CacheDuration
    requires IsHit(e, t1) ==> t2 - e.timestamp.value < CacheDuration
    ensures var (e1, r1) := Serve(e, t1, read1);
      IsHit(e1, t2) && Serve(e1, t2, read2) == (e1, r1)
  {
  }

  /** The cache object. `source` is the collection the stored statistics were
      computed from; it exists only for the specification. */
  class StatsCache {
    var data: Option<Stats>
    var timestamp: Option<int>
    ghost var source: seq<Item>

    /** Statistics are stored only together with a timestamp, and they are
        the statistics of `source`. */
    ghost predicate Valid()
      reads this
    {
      data.Some? ==> timestamp.Some? && data.value == CalculateStats(source)
    }

    function Entry(): CacheEntry
      reads this
    {
      CacheEntry(data, timestamp)
    }

    /** The cache starts empty. */
    constructor ()
      ensures Valid() && data == None && timestamp == None
    {
      data := None;
      timestamp := None;
      source := [];
    }

    /** GET /api/stats at time `now` over the data file `store`. A hit does
        not read the store; every answer is the statistics of a collection
        read less than `CacheDuration` before `now`. */
    method Get(now: int, store: Store) returns (r: Result<Stats>)
      requires Valid()
      modifies this, store`readCount
      ensures Valid()
      ensures (Entry(), r) == Serve(old(Entry()), now,
                                   if store.readable then Ok(store.items) else Err(StorageUnavailable))
      ensures IsHit(old(Entry()), now) ==> store.readCount == old(store.readCount)
      ensures r.Ok? ==> (r.value == CalculateStats(source)
                         && timestamp.Some? && now - timestamp.value < CacheDuration)
    {
      if IsHit(Entry(), now) {
        return Ok(data.value);
      }
      var read := store.ReadAll();
      match read
      case Err(e) =>
        r := Err(e);
      case Ok(items) =>
        var s := CalculateStats(items);
        data := Some(s);
        timestamp := Some(now);
        source := items;
        r := Ok(s);
    }

    /** The file watcher's reaction to a change of the data file: both fields
        are cleared, so the next request recomputes. */
    method Invalidate()
      modifies this
      ensures Valid() && data == None && timestamp == None
      ensures forall now :: !IsHit(Entry(), now)
    {
      data := None;
      timestamp := None;
    }
  }
}
