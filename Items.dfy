/** The items router: search and paging of the listing, lookup by id, and
    creation of an item, over a store that holds the collection in memory. */
module Items {
  import opened Common
  import opened Text

  /** A catalogue item; `price` is in cents. */
  datatype Item = Item(id: int, name: string, category: string, price: int)

  /** The listing's page size when the request has no `limit`. */
  const DefaultPageSize: nat := 10

  // ---------------------------------------------------------------------------
  // Search

  /** The search filter: the lower-cased term occurs in the lower-cased name
      or in the lower-cased category. */
  predicate Matches(item: Item, term: string)
  {
    Includes(Lower(item.name), Lower(term)) || Includes(Lower(item.category), Lower(term))
  }

  /** An item matches exactly when the lower-cased term occurs at some index
      of its lower-cased name or of its lower-cased category. */
  lemma MatchesIff(item: Item, term: string)
    ensures Matches(item, term) <==>
      (exists i :: OccursAt(Lower(item.name), Lower(term), i))
      || (exists i :: OccursAt(Lower(item.category), Lower(term), i))
  {
    IncludesIff(Lower(item.name), Lower(term));
    IncludesIff(Lower(item.category), Lower(term));
  }

  /** `items.filter(item => Matches(item, term))`, scanning left to right. */
  function Filter(items: seq<Item>, term: string): (r: seq<Item>)
    ensures |r| <= |items|
    ensures forall x :: x in r ==> x in items && Matches(x, term)
  {
    if items == [] then []
    else if Matches(items[0], term) then [items[0]] + Filter(items[1..], term)
    else Filter(items[1..], term)
  }

  /** The listing's search step: an absent or empty `q` keeps the whole
      collection, any other term filters it. */
  function Search(items: seq<Item>, q: Option<string>): (r: seq<Item>)
    ensures |r| <= |items|
    ensures forall x :: x in r ==> x in items
    ensures q.Some? && q.value != "" ==> r == Filter(items, q.value)
  {
    if q.None? || q.value == "" then items else Filter(items, q.value)
  }

  /** An item is a search result exactly when it is in the collection and
      either there is no term or it matches the term. */
  lemma SearchMembership(items: seq<Item>, q: Option<string>, x: Item)
    ensures x in Search(items, q) <==> x in items && (q.None? || q.value == "" || Matches(x, q.value))
  {
    if q.Some? && q.value != "" {
      FilterKeepsMatches(items, q.value, x);
    }
  }

  /** Every item of the collection that matches the term is kept. */
  lemma {:induction false} FilterKeepsMatches(items: seq<Item>, term: string, x: Item)
    ensures x in Filter(items, term) <==> x in items && Matches(x, term)
  {
    if items != [] {
      FilterKeepsMatches(items[1..], term, x);
      assert items == [items[0]] + items[1..];
    }
  }

  /** The filter keeps the original order: it distributes over concatenation. */
  lemma {:induction false} FilterAppend(a: seq<Item>, b: seq<Item>, term: string)
    ensures Filter(a + b, term) == Filter(a, term) + Filter(b, term)
  {
    if a == [] {
      assert a + b == b;
    } else {
      assert (a + b)[1..] == a[1..] + b;
      FilterAppend(a[1..], b, term);
    }
  }

  /** The filter keeps one item exactly when it matches. */
  lemma FilterSingle(x: Item, term: string)
    ensures Filter([x], term) == if Matches(x, term) then [x] else []
  {
    assert [x][1..] == [];
  }

  /** The filter keeps a collection unchanged exactly when every item matches. */
  lemma {:induction false} FilterIdentity(items: seq<Item>, term: string)
    ensures Filter(items, term) == items <==> forall x :: x in items ==> Matches(x, term)
  {
    if items != [] {
      FilterIdentity(items[1..], term);
      assert items == [items[0]] + items[1..];
      if !Matches(items[0], term) {
        assert |Filter(items, term)| < |items|;
      }
    }
  }

  /** Search is case-insensitive: terms with the same lower case select the
      same items in the same order. */
  lemma {:induction false} SearchCaseInsensitive(items: seq<Item>, t1: string, t2: string)
    requires Lower(t1) == Lower(t2)
    ensures Search(items, Some(t1)) == Search(items, Some(t2))
  {
    assert |t1| == |Lower(t1)| == |Lower(t2)| == |t2|;
    if t1 != "" {
      FilterSameLower(items, t1, t2);
    }
  }

  lemma {:induction false} FilterSameLower(items: seq<Item>, t1: string, t2: string)
    requires Lower(t1) == Lower(t2)
    ensures Filter(items, t1) == Filter(items, t2)
  {
    if items != [] {
      FilterSameLower(items[1..], t1, t2);
    }
  }

  /** An absent or empty term leaves the collection unfiltered. */
  lemma SearchWithoutTerm(items: seq<Item>, q: Option<string>)
    requires q.None? || q.value == ""
    ensures Search(items, q) == items
  {
  }

  // ---------------------------------------------------------------------------
  // Paging

  datatype PageInfo = PageInfo(page: nat, limit: nat, total: nat, totalPages: nat)
  datatype PageResult = PageResult(items: seq<Item>, pagination: PageInfo)

  /** `Math.ceil(total / size)`: the least number of pages of `size` items
      that hold `total` items. */
  function CeilDiv(total: nat, size: nat): (r: nat)
    requires size >= 1
    ensures total <= r * size
    ensures r == 0 || (r - 1) * size < total
    ensures r == 0 <==> total == 0
  {
    var q := total / size;
    if q * size == total then q else q + 1
  }

  /** `s.slice(start, end)` for non-negative bounds: both are clamped to the
      length, and a start at or after the end gives the empty sequence. */
  function Slice(s: seq<Item>, start: nat, end: nat): (r: seq<Item>)
    ensures |r| == Max(0, Min(end, |s|) - start)
    ensures forall k :: 0 <= k < |r| ==> r[k] == s[start + k]
  {
    var e := Min(end, |s|);
    if start < e then s[start..e] else []
  }

  /** The page `page` of size `pageSize` of the search results, with the metadata. */
  function Paginate(results: seq<Item>, page: nat, pageSize: nat): (r: PageResult)
    requires page >= 1 && pageSize >= 1
    ensures |r.items| <= pageSize
    ensures |r.items| == Max(0, Min(pageSize, |results| - (page - 1) * pageSize))
    ensures forall k :: 0 <= k < |r.items| ==> r.items[k] == results[(page - 1) * pageSize + k]
    ensures r.pagination.total == |results|
    ensures r.pagination.totalPages == CeilDiv(|results|, pageSize)
    ensures r.pagination.page == page && r.pagination.limit == pageSize
  {
    var start := (page - 1) * pageSize;
    PageResult(Slice(results, start, start + pageSize),
               PageInfo(page, pageSize, |results|, CeilDiv(|results|, pageSize)))
  }

  /** A page past the last one is empty, not an error. */
  lemma PageBeyondEndIsEmpty(results: seq<Item>, page: nat, pageSize: nat)
    requires page >= 1 && pageSize >= 1
    requires page > CeilDiv(|results|, pageSize)
    ensures Paginate(results, page, pageSize).items == []
  {
    var t := CeilDiv(|results|, pageSize);
    assert |results| <= t * pageSize <= (page - 1) * pageSize by {
      MulMonotone(t, page - 1, pageSize);
    }
  }

  /** Every page before the last one is full. */
  lemma PageBeforeLastIsFull(results: seq<Item>, page: nat, pageSize: nat)
    requires page >= 1 && pageSize >= 1
    requires page < CeilDiv(|results|, pageSize)
    ensures |Paginate(results, page, pageSize).items| == pageSize
  {
    var t := CeilDiv(|results|, pageSize);
    assert page * pageSize <= (t - 1) * pageSize < |results| by {
      MulMonotone(page, t - 1, pageSize);
    }
  }

  /** Each result appears on exactly one page: item `i` is entry `i % pageSize`
      of page `i / pageSize + 1`, and that page is within `totalPages`. */
  lemma PagesCoverResults(results: seq<Item>, pageSize: nat, i: nat)
    requires pageSize >= 1 && i < |results|
    ensures var page := i / pageSize + 1;
      && page <= Paginate(results, page, pageSize).pagination.totalPages
      && i % pageSize < |Paginate(results, page, pageSize).items|
      && Paginate(results, page, pageSize).items[i % pageSize] == results[i]
  {
    var page := i / pageSize + 1;
    assert (page - 1) * pageSize + i % pageSize == i;
    var t := CeilDiv(|results|, pageSize);
    if t < page {
      MulMonotone(t, page - 1, pageSize);
      assert false;
    }
  }

  lemma MulMonotone(a: nat, b: nat, c: nat)
    requires a <= b
    ensures a * c <= b * c
  {
  }

  /** `limit ? parseInt(limit) : 10`, with the limit already parsed. */
  function PageSizeOf(limit: Option<nat>): (r: nat)
    requires limit.Some? ==> limit.value >= 1
    ensures r >= 1
    ensures limit.None? ==> r == DefaultPageSize
    ensures limit.Some? ==> r == limit.value
  {
    if limit.Some? then limit.value else DefaultPageSize
  }

  /** `parseInt(page)` with the default `page = 1`, the page already parsed. */
  function PageNumberOf(page: Option<nat>): (r: nat)
    requires page.Some? ==> page.value >= 1
    ensures r >= 1
    ensures page.None? ==> r == 1
    ensures page.Some? ==> r == page.value
  {
    if page.Some? then page.value else 1
  }

  /** GET /api/items: the search term, the page size (10 when `limit` is
      absent) and the page number (1 when `page` is absent) select one page
      of the search matches, so by the contract of `Paginate` the answer holds
      the matches from index `(page - 1) * limit` on, in order, and the page
      count of all the matches. */
  function ListQuery(data: seq<Item>, q: Option<string>, limit: Option<nat>, page: Option<nat>): (r: PageResult)
    requires limit.Some? ==> limit.value >= 1
    requires page.Some? ==> page.value >= 1
    ensures r.pagination.total == |Search(data, q)|
    ensures (q.None? || q == Some("")) ==> r.pagination.total == |data|
    ensures r.pagination.limit == PageSizeOf(limit)
    ensures r.pagination.page == PageNumberOf(page)
    ensures r == Paginate(Search(data, q), PageNumberOf(page), PageSizeOf(limit))
    ensures |r.items| <= PageSizeOf(limit)
    ensures forall x :: x in r.items ==> x in data
  {
    PageWithinResults(Search(data, q), PageNumberOf(page), PageSizeOf(limit));
    Paginate(Search(data, q), PageNumberOf(page), PageSizeOf(limit))
  }

  /** Every item of a page is one of the results it was cut from. */
  lemma PageWithinResults(results: seq<Item>, page: nat, pageSize: nat)
    requires page >= 1 && pageSize >= 1
    ensures forall x :: x in Paginate(results, page, pageSize).items ==> x in results
  {
    var items := Paginate(results, page, pageSize).items;
    forall x | x in items ensures x in results {
      var k :| 0 <= k < |items| && items[k] == x;
      assert x == results[(page - 1) * pageSize + k];
    }
  }

  // ---------------------------------------------------------------------------
  // Lookup

  /** The position `data.find(i => i.id === id)` stops at: the first item with that id. */
  function FindIndex(data: seq<Item>, id: int): (r: Option<nat>)
    ensures r.Some? ==> r.value < |data| && data[r.value].id == id
    ensures r.Some? ==> forall j :: 0 <= j < r.value ==> data[j].id != id
    ensures r.None? ==> forall j :: 0 <= j < |data| ==> data[j].id != id
  {
    if data == [] then None
    else if data[0].id == id then Some(0)
    else match FindIndex(data[1..], id)
      case None => None
      case Some(k) => Some(k + 1)
  }

  /** `data.find(i => i.id === id)`: the first item with that id, if any. */
  function Find(data: seq<Item>, id: int): (r: Option<Item>)
    ensures r.None? <==> forall x :: x in data ==> x.id != id
    ensures r.Some? ==> r.value in data && r.value.id == id
    ensures r.Some? ==> exists k :: 0 <= k < |data| && data[k] == r.value
                                 && forall j :: 0 <= j < k ==> data[j].id != id
  {
    match FindIndex(data, id)
    case None => None
    case Some(k) => Some(data[k])
  }

  /** GET /api/items/:id with the id already parsed: an unparsable id
      (`parseInt` gives NaN, which equals nothing) is not found either. */
  function FindById(data: seq<Item>, id: Option<int>): (r: Option<Item>)
    ensures r.Some? <==> id.Some? && exists k :: 0 <= k < |data| && data[k].id == id.value
    ensures r.Some? ==> r.value in data && Some(r.value.id) == id
    ensures id.Some? ==> r == Find(data, id.value)
  {
    match id
    case None => None
    case Some(n) => Find(data, n)
  }

  /** An item appended at the end is found by its id unless an earlier
      item already has that id, in which case the earlier one is found. */
  lemma {:induction false} FindAfterAppend(data: seq<Item>, x: Item)
    ensures Find(data + [x], x.id) == if Find(data, x.id).Some? then Find(data, x.id) else Some(x)
  {
    if data != [] {
      assert (data + [x])[1..] == data[1..] + [x];
      FindAfterAppend(data[1..], x);
    }
  }

  /** Appending an item does not change what is found for an id some earlier item has. */
  lemma {:induction false} FindUnchangedByAppend(data: seq<Item>, x: Item, id: int)
    requires Find(data, id).Some?
    ensures Find(data + [x], id) == Find(data, id)
  {
    if data[0].id != id {
      assert (data + [x])[1..] == data[1..] + [x];
      FindUnchangedByAppend(data[1..], x, id);
    }
  }

  // ---------------------------------------------------------------------------
  // Creation

  /** The body of POST /api/items: a field that is absent (or, for the
      price, not a JSON number) is `None`. */
  datatype Payload = Payload(name: Option<string>, category: Option<string>, price: Option<int>)

  /** A JavaScript string is truthy when it is not empty. */
  predicate Truthy(s: Option<string>)
  {
    s.Some? && s.value != ""
  }

  /** `name && category && typeof price === 'number' && price > 0`;
      nothing is trimmed, so a name of one space is accepted. */
  predicate ValidPayload(p: Payload)
  {
    Truthy(p.name) && Truthy(p.category) && p.price.Some? && p.price.value > 0
  }

  /** The item POST /api/items stores and answers: the payload plus the id. */
  function NewItem(p: Payload, id: int): (r: Item)
    requires ValidPayload(p)
    ensures r.id == id && r.name != "" && r.category != "" && r.price > 0
    ensures Some(r.name) == p.name && Some(r.category) == p.category && Some(r.price) == p.price
  {
    Item(id, p.name.value, p.category.value, p.price.value)
  }

  /** The data file as an in-memory collection. `readable` says whether reading
      it succeeds (the file may be missing or hold malformed JSON); `readCount`
      counts the reads, so that what does not read the store can say so. */
  class Store {
    var items: seq<Item>
    var readable: bool
    ghost var readCount: nat

    constructor (items: seq<Item>, readable: bool)
      ensures this.items == items && this.readable == readable && readCount == 0
    {
      this.items := items;
      this.readable := readable;
      readCount := 0;
    }

    /** `readData()`: the whole collection, or the storage failure. */
    method ReadAll() returns (r: Result<seq<Item>>)
      modifies this`readCount
      ensures readCount == old(readCount) + 1
      ensures r == if readable then Ok(items) else Err(StorageUnavailable)
    {
      readCount := readCount + 1;
      if readable {
        r := Ok(items);
      } else {
        r := Err(StorageUnavailable);
      }
    }

    /** GET /api/items. */
    method List(q: Option<string>, limit: Option<nat>, page: Option<nat>) returns (r: Result<PageResult>)
      requires limit.Some? ==> limit.value >= 1
      requires page.Some? ==> page.value >= 1
      modifies this`readCount
      ensures r == if readable then Ok(ListQuery(items, q, limit, page)) else Err(StorageUnavailable)
    {
      var data := ReadAll();
      match data
      case Err(e) =>
        r := Err(e);
      case Ok(all) =>
        r := Ok(ListQuery(all, q, limit, page));
    }

    /** GET /api/items/:id. */
    method Get(id: Option<int>) returns (r: Result<Item>)
      modifies this`readCount
      ensures !readable ==> r == Err(StorageUnavailable)
      ensures readable ==> r == match FindById(items, id) case Some(x) => Ok(x) case None => Err(NotFound)
    {
      var data := ReadAll();
      match data
      case Err(e) =>
        r := Err(e);
      case Ok(all) =>
        var found := FindById(all, id);
        if found.Some? {
          r := Ok(found.value);
        } else {
          r := Err(NotFound);
        }
    }

    /** POST /api/items with the id `Date.now()` gave: validate before
        reading, then append one item at the end and answer it. */
    method Create(p: Payload, id: int) returns (r: Result<Item>)
      modifies this`items, this`readCount
      ensures !ValidPayload(p) ==> r == Err(InvalidPayload) && items == old(items) && readCount == old(readCount)
      ensures ValidPayload(p) && !readable ==> r == Err(StorageUnavailable) && items == old(items)
      ensures ValidPayload(p) && readable ==>
        r == Ok(NewItem(p, id)) && items == old(items) + [NewItem(p, id)]
    {
      if !ValidPayload(p) {
        return Err(InvalidPayload);
      }
      var item := NewItem(p, id);
      var data := ReadAll();
      match data
      case Err(e) =>
        r := Err(e);
      case Ok(all) =>
        items := all + [item];
        r := Ok(item);
    }
  }
}
