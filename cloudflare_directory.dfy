/**
 * The zone and record directory: paginated listing (`zones`, `zone_records`)
 * and the provider's two lazy caches, `_zones` and `_zone_records`.
 * The service is an abstract source of pages; asking for a page past the
 * last one yields an empty page.
 */
module CloudflareDirectory {
  import opened Wrappers
  import opened Text
  import opened CloudflareWire

  /** One listing response: `result` and the `count`/`per_page` of `result_info`. */
  datatype Page<T> = Page(result: seq<T>, count: int, perPage: int)

  datatype ZoneInfo = ZoneInfo(name: string, id: string)

  /** The pages the service returns for the zone listing and, per zone id, the record listing. */
  datatype Remote = Remote(zonePages: seq<Page<ZoneInfo>>, recordPages: map<string, seq<Page<WireRecord>>>)

  function RecordPages(remote: Remote, zoneId: string): seq<Page<WireRecord>> {
    if zoneId in remote.recordPages then remote.recordPages[zoneId] else []
  }

  /** Page number `n` (counting from 1). */
  function PageAt<T>(pages: seq<Page<T>>, n: nat): (p: Page<T>)
    ensures n == 0 || n > |pages| ==> p.result == [] && p.count == 0
  {
    if 1 <= n <= |pages| then pages[n - 1] else Page([], 0, 0)
  }

  /** The listing loop goes on after a page exactly when the page was full. */
  predicate Full<T>(p: Page<T>) {
    p.count > 0 && p.count == p.perPage
  }

  /**
   * The items fetched from page `n` on, and the number of the last page
   * requested.
   */
  function FetchFrom<T>(pages: seq<Page<T>>, n: nat): (r: (seq<T>, nat))
    requires n >= 1
    ensures n <= r.1 <= |pages| + 1 || r.1 == n
    decreases if n <= |pages| then |pages| + 1 - n else 0
  {
    var p := PageAt(pages, n);
    if Full(p) then
      var rest := FetchFrom(pages, n + 1);
      (p.result + rest.0, rest.1)
    else
      (p.result, n)
  }

  /** The whole listing loop: pages 1, 2, ... until the first page that is not full. */
  function Paginate<T>(pages: seq<Page<T>>): (r: (seq<T>, nat))
    ensures r.1 >= 1
  {
    FetchFrom(pages, 1)
  }

  /** The results of pages `lo` to `hi`, concatenated in order. */
  function ResultsBetween<T>(pages: seq<Page<T>>, lo: nat, hi: nat): seq<T>
    decreases hi - lo
  {
    if lo > hi then [] else PageAt(pages, lo).result + ResultsBetween(pages, lo + 1, hi)
  }

  /**
   * The loop requests pages `n`, `n + 1`, ..., stops at the first page that is
   * not full, and returns the concatenation of exactly the pages it requested.
   */
  lemma {:induction false} FetchFromStops<T>(pages: seq<Page<T>>, n: nat)
    requires n >= 1
    ensures var r := FetchFrom(pages, n);
      && n <= r.1 <= Max(n, |pages| + 1)
      && (forall j :: n <= j < r.1 ==> Full(PageAt(pages, j)))
      && !Full(PageAt(pages, r.1))
      && r.0 == ResultsBetween(pages, n, r.1)
    decreases if n <= |pages| then |pages| + 1 - n else 0
  {
    var p := PageAt(pages, n);
    if Full(p) {
      FetchFromStops(pages, n + 1);
    } else {
      assert ResultsBetween(pages, n + 1, n) == [];
      assert ResultsBetween(pages, n, n) == p.result + [];
    }
  }

  lemma PaginateStops<T>(pages: seq<Page<T>>)
    ensures var r := Paginate(pages);
      && 1 <= r.1 <= |pages| + 1
      && (forall j :: 1 <= j < r.1 ==> Full(PageAt(pages, j)))
      && !Full(PageAt(pages, r.1))
      && r.0 == ResultsBetween(pages, 1, r.1)
  {
    FetchFromStops(pages, 1);
  }

  /** Putting one page in front shifts every page number by one. */
  lemma {:induction false} FetchFromShift<T>(p: Page<T>, pages: seq<Page<T>>, n: nat)
    requires n >= 1
    ensures FetchFrom([p] + pages, n + 1) == (FetchFrom(pages, n).0, FetchFrom(pages, n).1 + 1)
    decreases if n <= |pages| then |pages| + 1 - n else 0
  {
    assert PageAt([p] + pages, n + 1) == PageAt(pages, n);
    if Full(PageAt(pages, n)) {
      FetchFromShift(p, pages, n + 1);
    }
  }

  /** One turn of the listing loop: the items gathered so far plus page `n`, then the rest. */
  lemma FetchFromNext<T>(pages: seq<Page<T>>, n: nat, listed: seq<T>)
    requires n >= 1
    ensures var p := PageAt(pages, n);
      && (Full(p) ==> listed + FetchFrom(pages, n).0 == listed + p.result + FetchFrom(pages, n + 1).0
                      && FetchFrom(pages, n).1 == FetchFrom(pages, n + 1).1)
      && (!Full(p) ==> listed + FetchFrom(pages, n).0 == listed + p.result && FetchFrom(pages, n).1 == n)
  {
    var p := PageAt(pages, n);
    if Full(p) {
      assert listed + (p.result + FetchFrom(pages, n + 1).0) == listed + p.result + FetchFrom(pages, n + 1).0;
    }
  }

  /**
   * A listing of `items` served `perPage` at a time, every page but the last
   * full and `count` equal to the page's length.
   */
  function Chunks<T>(items: seq<T>, perPage: nat): seq<Page<T>>
    requires perPage > 0
    decreases |items|
  {
    if |items| == 0 then []
    else if |items| <= perPage then [Page(items, |items|, perPage)]
    else [Page(items[..perPage], perPage, perPage)] + Chunks(items[perPage..], perPage)
  }

  /**
   * Over such a listing of N items with page size P the loop returns exactly
   * the N items, in order, after R requests where (R - 1) * P <= N < R * P,
   * that is R = N / P + 1: when P divides N the last full page is followed by
   * one request that comes back empty.
   */
  lemma {:induction false} PaginateChunks<T>(items: seq<T>, perPage: nat)
    requires perPage > 0
    ensures var r := Paginate(Chunks(items, perPage));
      && r.0 == items
      && (r.1 - 1) * perPage <= |items| < r.1 * perPage
    decreases |items|
  {
    var pages := Chunks(items, perPage);
    if |items| == 0 {
    } else if |items| < perPage {
      assert items + [] == items;
    } else if |items| == perPage {
      assert FetchFrom(pages, 2) == ([], 2);
      assert items + [] == items;
    } else {
      var first := Page(items[..perPage], perPage, perPage);
      var rest := items[perPage..];
      assert pages == [first] + Chunks(rest, perPage);
      PaginateChunks(rest, perPage);
      FetchFromShift(first, Chunks(rest, perPage), 1);
      var k := Paginate(Chunks(rest, perPage)).1;
      assert (k + 1 - 1) * perPage == (k - 1) * perPage + perPage;
      assert (k + 1) * perPage == k * perPage + perPage;
      assert items[..perPage] + rest == items;
    }
  }

  /** `{'{}.'.format(z['name']): z['id'] for z in zones}`: a later zone of the same name wins. */
  function ZoneMap(zs: seq<ZoneInfo>): map<string, string>
  {
    if zs == [] then map[]
    else ZoneMap(zs[..|zs| - 1])[zs[|zs| - 1].name + "." := zs[|zs| - 1].id]
  }

  /** Every listed zone is keyed by its name plus a dot, and only listed zones are keys. */
  lemma {:induction false} ZoneMapKeys(zs: seq<ZoneInfo>)
    ensures forall i :: 0 <= i < |zs| ==> zs[i].name + "." in ZoneMap(zs)
    ensures forall k :: k in ZoneMap(zs) ==>
      && EndsWithDot(k)
      && exists i :: 0 <= i < |zs| && zs[i].name + "." == k && ZoneMap(zs)[k] == zs[i].id
  {
    if zs != [] {
      var init := zs[..|zs| - 1];
      ZoneMapKeys(init);
      forall k | k in ZoneMap(zs)
        ensures EndsWithDot(k) &&
          exists i :: 0 <= i < |zs| && zs[i].name + "." == k && ZoneMap(zs)[k] == zs[i].id
      {
        if k == zs[|zs| - 1].name + "." {
          assert zs[|zs| - 1].name + "." == k && ZoneMap(zs)[k] == zs[|zs| - 1].id;
        } else {
          var i :| 0 <= i < |init| && init[i].name + "." == k && ZoneMap(init)[k] == init[i].id;
          assert zs[i] == init[i];
        }
      }
      forall i | 0 <= i < |zs| ensures zs[i].name + "." in ZoneMap(zs) {
        if i < |init| {
          assert zs[i] == init[i];
        }
      }
    }
  }

  /** The requests of a listing loop that ran to page `last`. */
  function ZoneListCalls(last: nat): (cs: seq<Call>)
    ensures |cs| == last && forall j :: 0 <= j < last ==> cs[j] == ListZones(j + 1)
  {
    seq(last, j requires 0 <= j < last => ListZones(j + 1))
  }

  function RecordListCalls(zoneId: string, last: nat): (cs: seq<Call>)
    ensures |cs| == last && forall j :: 0 <= j < last ==> cs[j] == ListRecords(zoneId, j + 1)
  {
    seq(last, j requires 0 <= j < last => ListRecords(zoneId, j + 1))
  }

  /** One more request extends the request log by the next page. */
  lemma ListCallsNext(zoneId: string, n: nat)
    ensures ZoneListCalls(n + 1) == ZoneListCalls(n) + [ListZones(n + 1)]
    ensures RecordListCalls(zoneId, n + 1) == RecordListCalls(zoneId, n) + [ListRecords(zoneId, n + 1)]
  {
    assert ZoneListCalls(n + 1) == ZoneListCalls(n) + [ListZones(n + 1)];
    assert RecordListCalls(zoneId, n + 1) == RecordListCalls(zoneId, n) + [ListRecords(zoneId, n + 1)];
  }

  /** The provider's caches: `_zones` (None until first listed) and `_zone_records`. */
  datatype Cache = Cache(zones: Option<map<string, string>>, records: map<string, seq<WireRecord>>)

  /** The outcome of one provider operation: new caches, its value, and the calls it made. */
  datatype Step<T> = Step(cache: Cache, value: T, calls: seq<Call>)

  /** The `zones` property: list once, then answer from `_zones`. */
  function ZonesStep(c: Cache, remote: Remote): (s: Step<map<string, string>>)
    ensures s.cache.records == c.records
    ensures s.cache.zones == Some(s.value)
    ensures c.zones.Some? ==> s == Step(c, c.zones.value, [])
  {
    if c.zones.Some? then Step(c, c.zones.value, [])
    else
      var r := Paginate(remote.zonePages);
      var zm := ZoneMap(r.0);
      Step(c.(zones := Some(zm)), zm, ZoneListCalls(r.1))
  }

  /**
   * `zone_records`: answer from `_zone_records` when cached; otherwise look the
   * zone id up (listing zones if needed), return no records for an unknown zone
   * without caching anything, or list and cache the zone's records.
   */
  function RecordsStep(c: Cache, remote: Remote, zoneName: string): (s: Step<seq<WireRecord>>)
    ensures c.zones.Some? ==> s.cache.zones == c.zones
    ensures zoneName !in c.records ==> s.cache.zones.Some?
    ensures s.cache.records == c.records || s.cache.records == c.records[zoneName := s.value]
  {
    if zoneName in c.records then Step(c, c.records[zoneName], [])
    else
      var z := ZonesStep(c, remote);
      if zoneName !in z.value || z.value[zoneName] == "" then Step(z.cache, [], z.calls)
      else
        var zoneId := z.value[zoneName];
        var r := Paginate(RecordPages(remote, zoneId));
        Step(z.cache.(records := z.cache.records[zoneName := r.0]), r.0, z.calls + RecordListCalls(zoneId, r.1))
  }

  /** Once a zone's records are cached, reading them again makes no request. */
  lemma RecordsCached(c: Cache, remote: Remote, zoneName: string)
    requires zoneName in c.records
    ensures RecordsStep(c, remote, zoneName) == Step(c, c.records[zoneName], [])
  {
  }

  /**
   * A zone the service does not know yields no records and nothing is cached
   * for it; the only requests are those of the zone listing, if it was not
   * yet cached.
   */
  lemma RecordsUnknownZone(c: Cache, remote: Remote, zoneName: string)
    requires zoneName !in c.records && zoneName !in ZonesStep(c, remote).value
    ensures var s := RecordsStep(c, remote, zoneName);
      && s.value == []
      && s.cache == ZonesStep(c, remote).cache
      && s.cache.records == c.records
      && s.calls == ZonesStep(c, remote).calls
  {
  }
}
