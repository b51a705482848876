/**
 * The item catalog and its in-memory cache (`getItems`): a snapshot of the
 * upstream list kept for one hour, refreshed by one fetch when stale, and
 * kept as it is when a refresh fails.
 */
module Catalog {
  import opened Builtins

  /**
   * One catalog entry as parsed from the catalog document. `itemId` is a
   * separate, optional field that the sitemap reads; lookups use `id`.
   */
  datatype Item = Item(id: string, name: string, file: string, page: string, itemId: Option<string>)

  /** `CACHE_DURATION`: one hour in milliseconds. */
  const CacheDuration: int := 3600 * 1000

  /**
   * The outcome of fetching the catalog document: the request rejected, or an
   * answer with its status and its body parsed as a list (None: not a list).
   */
  datatype CatalogFetch =
    | Rejected
    | Answered(status: nat, json: Option<seq<Item>>)

  /** A refresh succeeds when the answer is 2xx and its body parses. */
  predicate Succeeds(f: CatalogFetch) {
    f.Answered? && 200 <= f.status <= 299 && f.json.Some?
  }

  /** The module state: `itemsCache` (None: still null) and `lastFetch`. */
  datatype CacheState = CacheState(items: Option<seq<Item>>, lastFetch: int)

  const Initial: CacheState := CacheState(None, 0)

  /** The fast path applies: a snapshot exists and is younger than the duration. */
  predicate IsFresh(s: CacheState, now: int) {
    s.items.Some? && now - s.lastFetch < CacheDuration
  }

  /** One call of `getItems`: what it returns, the state after it, whether it fetched. */
  datatype Lookup = Lookup(items: seq<Item>, next: CacheState, fetched: bool)

  /** The specification of one `getItems` call at time `now`, given what a fetch would yield. */
  function GetItemsStep(s: CacheState, now: int, f: CatalogFetch): Lookup {
    if IsFresh(s, now) then Lookup(s.items.value, s, false)
    else if Succeeds(f) then Lookup(f.json.value, CacheState(f.json, now), true)
    else Lookup(s.items.GetOr([]), s, true)
  }

  class Cache {
    var itemsCache: Option<seq<Item>>
    var lastFetch: int
    /** How many catalog fetches the calls so far have issued. */
    ghost var fetches: nat

    function State(): CacheState
      reads this
    {
      CacheState(itemsCache, lastFetch)
    }

    constructor ()
      ensures State() == Initial && fetches == 0
    {
      itemsCache := None;
      lastFetch := 0;
      fetches := 0;
    }

    /** `getItems()`: `now` is `Date.now()` at entry, `f` what the fetch would yield. */
    method GetItems(now: int, f: CatalogFetch) returns (items: seq<Item>)
      modifies this
      ensures items == GetItemsStep(old(State()), now, f).items
      ensures State() == GetItemsStep(old(State()), now, f).next
      ensures fetches == old(fetches) + if GetItemsStep(old(State()), now, f).fetched then 1 else 0
    {
      if itemsCache.Some? && now - lastFetch < CacheDuration {
        return itemsCache.value;
      }
      fetches := fetches + 1;
      if f.Answered? && 200 <= f.status <= 299 && f.json.Some? {
        itemsCache := f.json;
        lastFetch := now;
        return f.json.value;
      }
      items := if itemsCache.Some? then itemsCache.value else [];
    }
  }

  // ---------------------------------------------------------------------------
  // Properties of one call

  /** Fast path: a fresh snapshot is returned with no fetch and no state change. */
  lemma FreshHit(s: CacheState, now: int, f: CatalogFetch)
    requires IsFresh(s, now)
    ensures GetItemsStep(s, now, f) == Lookup(s.items.value, s, false)
  {
  }

  /** Otherwise exactly one fetch is made; on success the data and the entry time are stored. */
  lemma RefreshOnSuccess(s: CacheState, now: int, data: seq<Item>, status: nat)
    requires !IsFresh(s, now) && 200 <= status <= 299
    ensures GetItemsStep(s, now, Answered(status, Some(data))) == Lookup(data, CacheState(Some(data), now), true)
  {
  }

  /** A non-2xx answer or an unparsable body is handled exactly like a rejected fetch. */
  lemma FailuresAlike(s: CacheState, now: int, f: CatalogFetch)
    requires !Succeeds(f)
    ensures GetItemsStep(s, now, f) == GetItemsStep(s, now, Rejected)
  {
  }

  /** A failed refresh leaves the state alone and serves the old snapshot, or [] if none. */
  lemma FailureServesStale(s: CacheState, now: int, f: CatalogFetch)
    requires !IsFresh(s, now) && !Succeeds(f)
    ensures GetItemsStep(s, now, f) == Lookup(if s.items.Some? then s.items.value else [], s, true)
  {
  }

  /** Once populated, the cache never becomes empty again. */
  lemma NeverRegresses(s: CacheState, now: int, f: CatalogFetch)
    requires s.items.Some?
    ensures GetItemsStep(s, now, f).next.items.Some?
  {
  }

  // ---------------------------------------------------------------------------
  // Properties of call sequences

  /** Two calls within the duration: one fetch in all, both return the first data. */
  lemma {:induction false} TwoCallsWithinDuration(t1: int, t2: int, data: seq<Item>, f2: CatalogFetch)
    requires t1 <= t2 < t1 + CacheDuration
    ensures var a := GetItemsStep(Initial, t1, Answered(200, Some(data)));
            var b := GetItemsStep(a.next, t2, f2);
            a.fetched && !b.fetched && a.items == data && b.items == data
  {
    var a := GetItemsStep(Initial, t1, Answered(200, Some(data)));
    assert !IsFresh(Initial, t1);
    assert a.next == CacheState(Some(data), t1);
    assert IsFresh(a.next, t2);
  }

  /**
   * A call after the duration fetches again; if that fetch fails the first
   * snapshot is still served and the state is unchanged.
   */
  lemma {:induction false} ExpiredThenFailure(t1: int, t2: int, data: seq<Item>, f2: CatalogFetch)
    requires t2 >= t1 + CacheDuration && !Succeeds(f2)
    ensures var a := GetItemsStep(Initial, t1, Answered(200, Some(data)));
            var b := GetItemsStep(a.next, t2, f2);
            b.fetched && b.items == data && b.next == a.next
  {
    var a := GetItemsStep(Initial, t1, Answered(200, Some(data)));
    assert !IsFresh(Initial, t1);
    assert a.next == CacheState(Some(data), t1);
    assert !IsFresh(a.next, t2);
  }

  /**
   * A failed refresh does not advance `lastFetch`: every later call (time does
   * not go backwards) attempts a fetch again.
   */
  lemma {:induction false} FailureRetries(s: CacheState, now: int, later: int, f: CatalogFetch, g: CatalogFetch)
    requires !IsFresh(s, now) && !Succeeds(f) && now <= later
    ensures GetItemsStep(GetItemsStep(s, now, f).next, later, g).fetched
  {
    assert GetItemsStep(s, now, f).next == s;
    assert !IsFresh(s, later);
  }

  // ---------------------------------------------------------------------------
  // Lookup by id (`items.find((i) => i.id === id)`), used by the detail and download handlers

  function FindById(items: seq<Item>, id: string): (r: Option<Item>)
    ensures r.Some? ==> r.value.id == id
    ensures r.Some? ==> exists k :: 0 <= k < |items| && items[k] == r.value && forall j :: 0 <= j < k ==> items[j].id != id
    ensures r.None? <==> forall k :: 0 <= k < |items| ==> items[k].id != id
    decreases |items|
  {
    if |items| == 0 then None
    else if items[0].id == id then Some(items[0])
    else
      var r := FindById(items[1..], id);
      assert r.Some? ==> exists k :: 0 <= k < |items| && items[k] == r.value && forall j :: 0 <= j < k ==> items[j].id != id by {
        if r.Some? {
          var k :| 0 <= k < |items[1..]| && items[1..][k] == r.value && forall j :: 0 <= j < k ==> items[1..][j].id != id;
          assert items[k + 1] == r.value;
          assert forall j :: 0 <= j < k + 1 ==> items[j].id != id by {
            forall j | 0 <= j < k + 1 ensures items[j].id != id {
              if j > 0 { assert items[j] == items[1..][j - 1]; }
            }
          }
        }
      }
      assert r.None? ==> forall k :: 0 <= k < |items| ==> items[k].id != id by {
        if r.None? {
          forall k | 0 <= k < |items| ensures items[k].id != id {
            if k > 0 { assert items[k] == items[1..][k - 1]; }
          }
        }
      }
      r
  }
}
