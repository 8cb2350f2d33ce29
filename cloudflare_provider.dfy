/**
 * `CloudflareProvider` itself: the two caches, the listing loops behind the
 * `zones` property and `zone_records`, `populate`, and the `_apply_*` methods.
 * Every request the provider makes is appended to `log` instead of being
 * sent; each method is proved against the step functions below, which say
 * what the caches become and which requests go out.
 */
module CloudflareProvider {
  import opened Wrappers
  import opened Text
  import opened DnsRecord
  import opened CloudflareWire
  import opened CloudflareDirectory
  import opened CloudflareUpdate
  import opened CloudflarePopulate
  import opened CloudflareFilter

  /**
   * What the `_apply_*` methods need of a change in a plan for `zoneName`:
   * its record lives in that zone, records are well formed, and an update's
   * existing record encodes to at least one fragment (the source reads the
   * key set of the first one).
   */
  predicate ChangeOk(change: Change, zoneName: string) {
    match change
    case Create(d) => d.zoneName == zoneName && WellFormed(d)
    case Update(e, d) => d.zoneName == zoneName && WellFormed(e) && WellFormed(d) && |GenContents(e)| > 0
    case Delete(e) => e.zoneName == zoneName
  }

  /**
   * One `_apply_<Change>`: a create POSTs the record's fragments; an update
   * reads the zone's records (listing them unless cached) and sends
   * `UpdateCalls`; a delete reads them and sends `DeleteCalls`.
   */
  function ChangeStep(c: Cache, remote: Remote, zoneName: string, change: Change): (s: Step<()>)
    requires ChangeOk(change, zoneName) && c.zones.Some? && zoneName in c.zones.value
    ensures s.cache.zones == c.zones
    ensures s.cache.records - {zoneName} == c.records - {zoneName}
    ensures zoneName in c.records ==> s.cache == c
  {
    var zoneId := c.zones.value[zoneName];
    match change
    case Create(d) => Step(c, (), Posts(zoneId, GenContents(d)))
    case Update(e, d) =>
      var rs := RecordsStep(c, remote, zoneName);
      Step(rs.cache, (), rs.calls + UpdateCalls(e, d, rs.value, zoneId))
    case Delete(e) =>
      var rs := RecordsStep(c, remote, zoneName);
      Step(rs.cache, (), rs.calls + DeleteCalls(e, rs.value))
  }

  /** The changes of a plan, dispatched in order. */
  function ChangesStep(c: Cache, remote: Remote, zoneName: string, changes: seq<Change>): (s: Step<()>)
    requires forall i :: 0 <= i < |changes| ==> ChangeOk(changes[i], zoneName)
    requires c.zones.Some? && zoneName in c.zones.value
    ensures s.cache.zones == c.zones
    ensures s.cache.records - {zoneName} == c.records - {zoneName}
    ensures zoneName in c.records ==> s.cache == c
  {
    if changes == [] then Step(c, (), [])
    else
      var s := ChangesStep(c, remote, zoneName, changes[..|changes| - 1]);
      var t := ChangeStep(s.cache, remote, zoneName, changes[|changes| - 1]);
      Step(t.cache, (), s.calls + t.calls)
  }

  /**
   * `_apply`: a zone the service does not have is created (under its name
   * without the trailing dot), its id is recorded and its record cache seeded
   * empty; the changes are dispatched in order; the zone's record cache is
   * dropped at the end. `newZoneId` is the id the service answers the
   * creation with.
   */
  function ApplyStep(c: Cache, remote: Remote, zoneName: string, changes: seq<Change>, newZoneId: string): (s: Step<()>)
    requires forall i :: 0 <= i < |changes| ==> ChangeOk(changes[i], zoneName)
    ensures s.cache.records == c.records - {zoneName}
    ensures var z := ZonesStep(c, remote);
      s.cache.zones == Some(if zoneName in z.value then z.value else z.value[zoneName := newZoneId])
  {
    var z := ZonesStep(c, remote);
    var created := zoneName !in z.value;
    var c1 := if created then Cache(Some(z.value[zoneName := newZoneId]), z.cache.records[zoneName := []]) else z.cache;
    var pre: seq<Call> := if created then z.calls + [CreateZone(DropLast(zoneName))] else z.calls;
    var s := ChangesStep(c1, remote, zoneName, changes);
    assert c1.records - {zoneName} == c.records - {zoneName};
    Step(s.cache.(records := s.cache.records - {zoneName}), (), pre + s.calls)
  }

  /**
   * An update dispatched once the zones are known: what `ApplyUpdate`
   * promises, read as a step of the plan.
   */
  lemma UpdateStep(c: Cache, remote: Remote, zoneName: string, e: Record, d: Record)
    requires ChangeOk(Update(e, d), zoneName) && c.zones.Some? && zoneName in c.zones.value
    ensures var z := ZonesStep(c, remote);
      var rs := RecordsStep(z.cache, remote, d.zoneName);
      var s := ChangeStep(c, remote, zoneName, Update(e, d));
      && s.cache == rs.cache
      && z.calls + rs.calls + UpdateCalls(e, d, rs.value, z.value[d.zoneName]) == s.calls
  {
    var rs := RecordsStep(c, remote, zoneName);
    var u := UpdateCalls(e, d, rs.value, c.zones.value[zoneName]);
    assert ChangeStep(c, remote, zoneName, Update(e, d)) == Step(rs.cache, (), rs.calls + u);
    assert ZonesStep(c, remote) == Step(c, c.zones.value, []);
    assert [] + rs.calls + u == rs.calls + u;
  }

  /** The changes up to and including the i-th: one more step after those before it. */
  lemma ChangesStepLast(c: Cache, remote: Remote, zoneName: string, changes: seq<Change>, i: nat)
    requires forall j :: 0 <= j < |changes| ==> ChangeOk(changes[j], zoneName)
    requires c.zones.Some? && zoneName in c.zones.value && i < |changes|
    ensures var s := ChangesStep(c, remote, zoneName, changes[..i]);
      var t := ChangeStep(s.cache, remote, zoneName, changes[i]);
      ChangesStep(c, remote, zoneName, changes[..i + 1]) == Step(t.cache, (), s.calls + t.calls)
  {
    assert changes[..i + 1][..i] == changes[..i];
  }

  lemma ChangesStepAll(c: Cache, remote: Remote, zoneName: string, changes: seq<Change>)
    requires forall j :: 0 <= j < |changes| ==> ChangeOk(changes[j], zoneName)
    requires c.zones.Some? && zoneName in c.zones.value
    ensures ChangesStep(c, remote, zoneName, changes[..|changes|]) == ChangesStep(c, remote, zoneName, changes)
  {
    assert changes[..|changes|] == changes;
  }

  /** `_apply` unfolded: the zone listing, the zone creation if any, then the changes. */
  lemma ApplyStepParts(c: Cache, remote: Remote, zoneName: string, changes: seq<Change>, newZoneId: string)
    requires forall i :: 0 <= i < |changes| ==> ChangeOk(changes[i], zoneName)
    ensures var z := ZonesStep(c, remote);
      var c1 := if zoneName !in z.value then Cache(Some(z.value[zoneName := newZoneId]), z.cache.records[zoneName := []]) else z.cache;
      var pre: seq<Call> := if zoneName !in z.value then z.calls + [CreateZone(DropLast(zoneName))] else z.calls;
      var s := ChangesStep(c1, remote, zoneName, changes);
      ApplyStep(c, remote, zoneName, changes, newZoneId) == Step(s.cache.(records := s.cache.records - {zoneName}), (), pre + s.calls)
  {
  }

  lemma AppendAssoc3<T>(a: seq<T>, b: seq<T>, c: seq<T>)
    ensures a + b + c == a + (b + c)
  {
  }

  lemma AppendAssoc<T>(a: seq<T>, b: seq<T>, c: seq<T>, d: seq<T>)
    ensures a + b + c + d == a + (b + c + d)
  {
  }

  /** Every call is a POST to the given zone. */
  predicate PostsTo(calls: seq<Call>, zoneId: string) {
    forall i :: 0 <= i < |calls| ==> calls[i].Post? && calls[i].zoneId == zoneId
  }

  /** Some call creates a zone. */
  predicate CreatesZone(calls: seq<Call>) {
    exists i :: 0 <= i < |calls| && calls[i].CreateZone?
  }

  /** One change applied while the zone's record cache holds an empty listing sends only POSTs. */
  lemma ChangeOnEmptyZone(c: Cache, remote: Remote, zoneName: string, change: Change)
    requires ChangeOk(change, zoneName) && c.zones.Some? && zoneName in c.zones.value
    requires zoneName in c.records && c.records[zoneName] == []
    ensures PostsTo(ChangeStep(c, remote, zoneName, change).calls, c.zones.value[zoneName])
  {
    var zoneId := c.zones.value[zoneName];
    var t := ChangeStep(c, remote, zoneName, change);
    match change
    case Create(d) =>
      PostsElements(zoneId, GenContents(d));
    case Update(e, d) =>
      assert RecordsStep(c, remote, zoneName) == Step(c, [], []);
      var pending := UpdateScan(e, d, []).pending;
      PostsElements(zoneId, pending);
      assert t.calls == [] + Posts(zoneId, pending);
    case Delete(e) =>
      assert RecordsStep(c, remote, zoneName) == Step(c, [], []);
      assert t.calls == [];
  }

  lemma PostsToAppend(a: seq<Call>, b: seq<Call>, zoneId: string)
    requires PostsTo(a, zoneId) && PostsTo(b, zoneId)
    ensures PostsTo(a + b, zoneId)
  {
    forall i | 0 <= i < |a + b| ensures (a + b)[i].Post? && (a + b)[i].zoneId == zoneId {
      if i >= |a| {
        assert (a + b)[i] == b[i - |a|];
      }
    }
  }

  /**
   * Changes applied while the zone's record cache holds an empty listing
   * (a zone just created) send nothing but POSTs to that zone: updates and
   * deletes find no live record to swap or remove.
   */
  lemma {:induction false} ChangesOnEmptyZone(c: Cache, remote: Remote, zoneName: string, changes: seq<Change>)
    requires forall i :: 0 <= i < |changes| ==> ChangeOk(changes[i], zoneName)
    requires c.zones.Some? && zoneName in c.zones.value
    requires zoneName in c.records && c.records[zoneName] == []
    ensures PostsTo(ChangesStep(c, remote, zoneName, changes).calls, c.zones.value[zoneName])
  {
    if changes != [] {
      var init := changes[..|changes| - 1];
      ChangesOnEmptyZone(c, remote, zoneName, init);
      var s := ChangesStep(c, remote, zoneName, init);
      assert s.cache == c;
      ChangeOnEmptyZone(c, remote, zoneName, changes[|changes| - 1]);
      var t := ChangeStep(c, remote, zoneName, changes[|changes| - 1]);
      assert ChangesStep(c, remote, zoneName, changes).calls == s.calls + t.calls;
      PostsToAppend(s.calls, t.calls, c.zones.value[zoneName]);
    }
  }

  /**
   * Applying a plan to a zone the service does not have: after the zone
   * listing comes exactly one zone creation, under the name without its
   * trailing dot, and then only POSTs to the new zone's id.
   */
  lemma NewZoneOnlyPosts(c: Cache, remote: Remote, zoneName: string, changes: seq<Change>, newZoneId: string)
    requires forall i :: 0 <= i < |changes| ==> ChangeOk(changes[i], zoneName)
    requires zoneName !in ZonesStep(c, remote).value
    ensures var n := |ZonesStep(c, remote).calls|;
      var calls := ApplyStep(c, remote, zoneName, changes, newZoneId).calls;
      && |calls| > n
      && calls[..n + 1] == ZonesStep(c, remote).calls + [CreateZone(DropLast(zoneName))]
      && PostsTo(calls[n + 1..], newZoneId)
  {
    var z := ZonesStep(c, remote);
    var c1 := Cache(Some(z.value[zoneName := newZoneId]), z.cache.records[zoneName := []]);
    ChangesOnEmptyZone(c1, remote, zoneName, changes);
    var pre := z.calls + [CreateZone(DropLast(zoneName))];
    var rest := ChangesStep(c1, remote, zoneName, changes).calls;
    assert ApplyStep(c, remote, zoneName, changes, newZoneId).calls == pre + rest;
    assert (pre + rest)[..|pre|] == pre;
    assert (pre + rest)[|pre|..] == rest;
  }

  /** The scan only ever PUTs or DELETEs. */
  lemma {:induction false} ScanKinds(live: seq<WireRecord>, name: string, t: string, shape: Shape,
                                     wanted: set<Fragment>, adds: seq<Fragment>)
    ensures var cs := Scan(live, name, t, shape, wanted, adds).calls;
      forall i :: 0 <= i < |cs| ==> cs[i].Put? || cs[i].DeleteRecord?
  {
    if live != [] {
      var init := live[..|live| - 1];
      ScanKinds(init, name, t, shape, wanted, adds);
      ScanLast(live, name, t, shape, wanted, adds);
      var s := Scan(init, name, t, shape, wanted, adds);
      var w := live[|live| - 1];
      if Stale(w, name, t, shape, wanted) {
        var c := if s.pending != [] then Put(w.zoneId, w.id, s.pending[0]) else DeleteRecord(w.zoneId, w.id);
        assert Scan(live, name, t, shape, wanted, adds).calls == s.calls + [c];
      }
    }
  }

  /** No call creates a zone. */
  predicate NoZoneCreation(calls: seq<Call>) {
    forall i :: 0 <= i < |calls| ==> !calls[i].CreateZone?
  }

  /** Reading a zone's records once zones are known makes only record-listing requests. */
  lemma RecordsStepKinds(c: Cache, remote: Remote, zoneName: string)
    requires c.zones.Some?
    ensures var cs := RecordsStep(c, remote, zoneName).calls;
      forall i :: 0 <= i < |cs| ==> cs[i].ListRecords?
  {
  }

  /** The calls of an update: record listing, then PUTs and DELETEs, then POSTs. */
  lemma UpdateKinds(e: Record, d: Record, live: seq<WireRecord>, zoneId: string)
    requires WellFormed(e) && WellFormed(d) && |GenContents(e)| > 0
    ensures var cs := UpdateCalls(e, d, live, zoneId);
      forall i :: 0 <= i < |cs| ==> cs[i].Put? || cs[i].DeleteRecord? || cs[i].Post?
  {
    var sc := UpdateScan(e, d, live);
    assert sc == Scan(live, DropLast(RecordFqdn(d)), TypeName(d.rtype), UpdateShape(e),
                      Elements(NewContents(d)), UpdateAdds(e, d));
    ScanKinds(live, DropLast(RecordFqdn(d)), TypeName(d.rtype), UpdateShape(e),
              Elements(NewContents(d)), UpdateAdds(e, d));
    PostsElements(zoneId, sc.pending);
    var cs := sc.calls + Posts(zoneId, sc.pending);
    assert cs == UpdateCalls(e, d, live, zoneId);
    forall i | 0 <= i < |cs| ensures cs[i].Put? || cs[i].DeleteRecord? || cs[i].Post? {
      if i >= |sc.calls| {
        assert cs[i] == Posts(zoneId, sc.pending)[i - |sc.calls|];
      }
    }
  }

  /** Appending two sequences neither of which creates a zone creates none. */
  lemma NoZoneCreationAppend(a: seq<Call>, b: seq<Call>)
    requires NoZoneCreation(a) && NoZoneCreation(b)
    ensures NoZoneCreation(a + b)
  {
    forall i | 0 <= i < |a + b| ensures !(a + b)[i].CreateZone? {
      if i >= |a| {
        assert (a + b)[i] == b[i - |a|];
      }
    }
  }

  /** A single change never creates a zone. */
  lemma ChangeNoZoneCreation(c: Cache, remote: Remote, zoneName: string, change: Change)
    requires ChangeOk(change, zoneName) && c.zones.Some? && zoneName in c.zones.value
    ensures NoZoneCreation(ChangeStep(c, remote, zoneName, change).calls)
  {
    var zoneId := c.zones.value[zoneName];
    var rs := RecordsStep(c, remote, zoneName);
    match change
    case Create(d) =>
      PostsElements(zoneId, GenContents(d));
    case Update(e, d) =>
      RecordsStepKinds(c, remote, zoneName);
      UpdateKinds(e, d, rs.value, zoneId);
      NoZoneCreationAppend(rs.calls, UpdateCalls(e, d, rs.value, zoneId));
    case Delete(e) =>
      RecordsStepKinds(c, remote, zoneName);
      DeleteCallsSpec(e, rs.value);
      var tail := DeleteCalls(e, rs.value);
      assert forall i :: 0 <= i < |tail| ==> tail[i] in tail;
      NoZoneCreationAppend(rs.calls, tail);
  }

  /** Dispatching changes never creates a zone. */
  lemma {:induction false} ChangesNoZoneCreation(c: Cache, remote: Remote, zoneName: string, changes: seq<Change>)
    requires forall i :: 0 <= i < |changes| ==> ChangeOk(changes[i], zoneName)
    requires c.zones.Some? && zoneName in c.zones.value
    ensures NoZoneCreation(ChangesStep(c, remote, zoneName, changes).calls)
  {
    if changes != [] {
      var init := changes[..|changes| - 1];
      ChangesNoZoneCreation(c, remote, zoneName, init);
      var s := ChangesStep(c, remote, zoneName, init);
      ChangeNoZoneCreation(s.cache, remote, zoneName, changes[|changes| - 1]);
      var t := ChangeStep(s.cache, remote, zoneName, changes[|changes| - 1]);
      NoZoneCreationAppend(s.calls, t.calls);
    }
  }

  /** `_apply` creates a zone exactly when the service's zone listing lacks it. */
  lemma ApplyCreatesZoneIff(c: Cache, remote: Remote, zoneName: string, changes: seq<Change>, newZoneId: string)
    requires forall i :: 0 <= i < |changes| ==> ChangeOk(changes[i], zoneName)
    ensures CreatesZone(ApplyStep(c, remote, zoneName, changes, newZoneId).calls) <==> zoneName !in ZonesStep(c, remote).value
  {
    var z := ZonesStep(c, remote);
    var created := zoneName !in z.value;
    var c1 := if created then Cache(Some(z.value[zoneName := newZoneId]), z.cache.records[zoneName := []]) else z.cache;
    var pre: seq<Call> := if created then z.calls + [CreateZone(DropLast(zoneName))] else z.calls;
    ChangesNoZoneCreation(c1, remote, zoneName, changes);
    var rest := ChangesStep(c1, remote, zoneName, changes).calls;
    assert ApplyStep(c, remote, zoneName, changes, newZoneId).calls == pre + rest;
    assert forall i :: 0 <= i < |z.calls| ==> z.calls[i].ListZones?;
    if created {
      assert (pre + rest)[|z.calls|].CreateZone?;
    }
  }

  /** The insertion loop of `populate`: one `add_record` per group, in group order. */
  method AddGroups(zone: Zone, records: seq<WireRecord>, hostname: string -> string,
                   order: seq<Group>, groups: map<Group, seq<WireRecord>>)
    requires order == GroupOrder(records, hostname)
    requires forall g :: g in order ==> g in groups && groups[g] == Members(records, hostname, g)
    modifies zone
    ensures zone.records == AddAll(old(zone.records), Populated(records, hostname))
  {
    ghost var added := Populated(records, hostname);
    for j := 0 to |order|
      invariant zone.records == AddAll(old(zone.records), added[..j])
    {
      var g := order[j];
      var rtype := if g.1 == CNAME && g.0 == "" then ALIAS else g.1;
      PopulatedAt(records, hostname, j);
      var data := DataFor(rtype, groups[g]);
      assert added[..j + 1][..j] == added[..j];
      zone.AddRecord(Key(g.0, rtype), data);
    }
    assert added[..|order|] == added;
  }

  /**
   * The grouping loop of `populate` (`values[name][type].append(record)`):
   * the groups in order of first appearance, and each group's members.
   */
  method GroupRecords(records: seq<WireRecord>, hostname: string -> string)
    returns (order: seq<Group>, groups: map<Group, seq<WireRecord>>)
    ensures order == GroupOrder(records, hostname)
    ensures forall g :: g in groups <==> g in order
    ensures forall g :: g in groups ==> groups[g] == Members(records, hostname, g)
  {
    order := [];
    groups := map[];
    for i := 0 to |records|
      invariant order == GroupOrder(records[..i], hostname)
      invariant forall g :: g in groups <==> g in order
      invariant forall g :: g in groups ==> groups[g] == Members(records[..i], hostname, g)
      invariant forall g :: g !in groups ==> Members(records[..i], hostname, g) == []
    {
      var w := records[i];
      assert records[..i + 1][..i] == records[..i];
      var name := hostname(w.name);
      var t := ParseType(w.rtype);
      if t.Some? {
        var g := (name, t.value);
        if g !in groups {
          order := order + [g];
          groups := groups[g := []];
        }
        groups := groups[g := groups[g] + [w]];
      }
    }
    assert records[..|records|] == records;
  }

  /**
   * The adds loop of `_apply_Update`: each new fragment either pops its twin
   * from the existing ones or is added.
   */
  method ComputeAdds(newContents: seq<Fragment>, existingContents: set<Fragment>) returns (adds: seq<Fragment>)
    requires NoDuplicates(newContents)
    ensures adds == Adds(newContents, existingContents)
  {
    adds := [];
    var unmatched := existingContents;
    for i := 0 to |newContents|
      invariant adds == Adds(newContents[..i], existingContents)
      invariant unmatched == existingContents - Elements(newContents[..i])
    {
      var f := newContents[i];
      assert newContents[..i + 1] == newContents[..i] + [f];
      assert f !in Elements(newContents[..i]);
      if f in unmatched {
        unmatched := unmatched - {f};
      } else {
        adds := adds + [f];
      }
    }
    assert newContents[..|newContents|] == newContents;
  }

  /** The provider: its caches and, in place of the HTTP session, the log of requests made. */
  class Provider {
    /** What the service answers to each listing request. */
    const remote: Remote
    /** `_zones`: None until the zones are first listed. */
    var zones: Option<map<string, string>>
    /** `_zone_records`, keyed by zone name. */
    var zoneRecords: map<string, seq<WireRecord>>
    /** Every request made so far, in order. */
    var log: seq<Call>

    function CacheOf(): Cache
      reads this
    {
      Cache(zones, zoneRecords)
    }

    constructor (remote: Remote)
      ensures this.remote == remote && zones == None && zoneRecords == map[] && log == []
    {
      this.remote := remote;
      zones := None;
      zoneRecords := map[];
      log := [];
    }

    /** The `zones` property: list every page once, then answer from the cache. */
    method Zones() returns (zs: map<string, string>)
      modifies this
      ensures var s := ZonesStep(old(CacheOf()), remote);
        && CacheOf() == s.cache && zs == s.value && log == old(log) + s.calls
    {
      if zones.Some? {
        return zones.value;
      }
      var pages := remote.zonePages;
      var page: nat := 1;
      var more := true;
      var listed: seq<ZoneInfo> := [];
      ghost var asked: nat := 0;
      while more
        invariant page >= 1 && asked == if more then page - 1 else page
        invariant more ==> listed + FetchFrom(pages, page).0 == Paginate(pages).0 && FetchFrom(pages, page).1 == Paginate(pages).1
        invariant !more ==> listed == Paginate(pages).0 && page == Paginate(pages).1
        invariant log == old(log) + ZoneListCalls(asked)
        invariant zones == old(zones) && zoneRecords == old(zoneRecords)
        decreases more, if page <= |pages| then |pages| + 1 - page else 0
      {
        var resp := PageAt(pages, page);
        FetchFromNext(pages, page, listed);
        ListCallsNext("", asked);
        AppendAssoc3(old(log), ZoneListCalls(asked), [ListZones(page)]);
        log := log + [ListZones(page)];
        asked := page;
        listed := listed + resp.result;
        if Full(resp) {
          page := page + 1;
        } else {
          more := false;
        }
      }
      zs := ZoneMap(listed);
      zones := Some(zs);
    }

    /**
     * `zone_records`: answer from the cache; otherwise find the zone's id,
     * give no records (and cache nothing) for an unknown zone, or list every
     * page of the zone's records and cache them.
     */
    method ZoneRecords(zoneName: string) returns (rs: seq<WireRecord>)
      modifies this
      ensures var s := RecordsStep(old(CacheOf()), remote, zoneName);
        && CacheOf() == s.cache && rs == s.value && log == old(log) + s.calls
    {
      if zoneName in zoneRecords {
        return zoneRecords[zoneName];
      }
      var zs := Zones();
      if zoneName !in zs || zs[zoneName] == "" {
        return [];
      }
      var zoneId := zs[zoneName];
      var listed := ListRecordPages(zoneId);
      zoneRecords := zoneRecords[zoneName := listed];
      rs := listed;
    }

    /** The `while page` loop of `zone_records`: request pages until one is not full. */
    method ListRecordPages(zoneId: string) returns (listed: seq<WireRecord>)
      modifies this
      ensures var r := Paginate(RecordPages(remote, zoneId));
        && listed == r.0 && log == old(log) + RecordListCalls(zoneId, r.1)
        && CacheOf() == old(CacheOf())
    {
      var pages := RecordPages(remote, zoneId);
      var page: nat := 1;
      var more := true;
      listed := [];
      ghost var asked: nat := 0;
      while more
        invariant page >= 1 && asked == if more then page - 1 else page
        invariant more ==> listed + FetchFrom(pages, page).0 == Paginate(pages).0 && FetchFrom(pages, page).1 == Paginate(pages).1
        invariant !more ==> listed == Paginate(pages).0 && page == Paginate(pages).1
        invariant log == old(log) + RecordListCalls(zoneId, asked)
        invariant zones == old(zones) && zoneRecords == old(zoneRecords)
        decreases more, if page <= |pages| then |pages| + 1 - page else 0
      {
        var resp := PageAt(pages, page);
        FetchFromNext(pages, page, listed);
        ListCallsNext(zoneId, asked);
        AppendAssoc3(old(log), RecordListCalls(zoneId, asked), [ListRecords(zoneId, page)]);
        log := log + [ListRecords(zoneId, page)];
        asked := page;
        listed := listed + resp.result;
        if Full(resp) {
          page := page + 1;
        } else {
          more := false;
        }
      }
    }

    /**
     * `populate`: read the zone's records, group those of a supported type by
     * owner name and type, and add one record per group to the zone, a root
     * CNAME group as an ALIAS. `hostname` stands for the zone's
     * `hostname_from_fqdn`.
     */
    method Populate(zone: Zone, hostname: string -> string)
      modifies this, zone
      ensures var s := RecordsStep(old(CacheOf()), remote, zone.name);
        && CacheOf() == s.cache && log == old(log) + s.calls
        && zone.records == AddAll(old(zone.records), Populated(s.value, hostname))
    {
      var records := ZoneRecords(zone.name);
      if records != [] {
        var order, groups := GroupRecords(records, hostname);
        AddGroups(zone, records, hostname, order, groups);
      }
    }

    /** `_apply_Create`: one POST per fragment of the new record, to the zone's id. */
    method ApplyCreate(desired: Record)
      requires WellFormed(desired)
      requires desired.zoneName in ZonesStep(CacheOf(), remote).value
      modifies this
      ensures var z := ZonesStep(old(CacheOf()), remote);
        && CacheOf() == z.cache
        && log == old(log) + z.calls + Posts(z.value[desired.zoneName], GenContents(desired))
    {
      var zs := Zones();
      var zoneId := zs[desired.zoneName];
      PostAll(zoneId, GenContents(desired));
    }

    /** POST each fragment, in order. */
    method PostAll(zoneId: string, fs: seq<Fragment>)
      modifies this
      ensures CacheOf() == old(CacheOf()) && log == old(log) + Posts(zoneId, fs)
    {
      for i := 0 to |fs|
        invariant CacheOf() == old(CacheOf()) && log == old(log) + Posts(zoneId, fs[..i])
      {
        assert fs[..i + 1][..i] == fs[..i];
        log := log + [Post(zoneId, fs[i])];
      }
      assert fs[..|fs|] == fs;
    }

    /**
     * `_apply_Update`: compute the adds, read the zone's records, swap or
     * remove each stale live record, then POST the adds left over.
     */
    method ApplyUpdate(existing: Record, desired: Record)
      requires WellFormed(existing) && WellFormed(desired) && |GenContents(existing)| > 0
      requires desired.zoneName in ZonesStep(CacheOf(), remote).value
      modifies this
      ensures var z := ZonesStep(old(CacheOf()), remote);
        var rs := RecordsStep(z.cache, remote, desired.zoneName);
        && CacheOf() == rs.cache
        && log == old(log) + z.calls + rs.calls + UpdateCalls(existing, desired, rs.value, z.value[desired.zoneName])
    {
      var existingContents := Elements(GenContents(existing));
      var newContents := NewContents(desired);
      var shape := ShapeOf(GenContents(existing)[0].payload);
      var adds := ComputeAdds(newContents, existingContents);
      var zs := Zones();
      var zoneId := zs[desired.zoneName];
      var live := ZoneRecords(desired.zoneName);
      var pending := SwapStale(live, DropLast(RecordFqdn(desired)), TypeName(desired.rtype), shape,
                               Elements(newContents), adds);
      PostAll(zoneId, pending);
    }

    /**
     * The loop over live records of `_apply_Update`: a record of the change's
     * name and type whose fingerprint is not wanted gets a PUT with the next
     * add, or a DELETE once the adds have run out. Returns the adds left.
     */
    method SwapStale(live: seq<WireRecord>, name: string, t: string, shape: Shape,
                     wanted: set<Fragment>, adds: seq<Fragment>) returns (pending: seq<Fragment>)
      modifies this
      ensures var s := Scan(live, name, t, shape, wanted, adds);
        && CacheOf() == old(CacheOf()) && log == old(log) + s.calls && pending == s.pending
    {
      pending := adds;
      for i := 0 to |live|
        invariant log == old(log) + Scan(live[..i], name, t, shape, wanted, adds).calls
        invariant pending == Scan(live[..i], name, t, shape, wanted, adds).pending
        invariant CacheOf() == old(CacheOf())
      {
        var w := live[i];
        assert live[..i + 1][..i] == live[..i];
        if name == w.name && t == w.rtype {
          var content := Fingerprint(w, shape, t);
          if content !in wanted {
            if pending != [] {
              log := log + [Put(w.zoneId, w.id, pending[0])];
              pending := pending[1..];
            } else {
              log := log + [DeleteRecord(w.zoneId, w.id)];
            }
          }
        }
      }
      assert live[..|live|] == live;
    }

    /** `_apply_Delete`: one DELETE per live record of the record's name and type. */
    method ApplyDelete(existing: Record)
      modifies this
      ensures var rs := RecordsStep(old(CacheOf()), remote, existing.zoneName);
        && CacheOf() == rs.cache
        && log == old(log) + rs.calls + DeleteCalls(existing, rs.value)
    {
      var name := DropLast(RecordFqdn(existing));
      var t := TypeName(existing.rtype);
      var live := ZoneRecords(existing.zoneName);
      ghost var base := log;
      ghost var cache := CacheOf();
      for i := 0 to |live|
        invariant log == base + DeleteCalls(existing, live[..i])
        invariant CacheOf() == cache
      {
        var w := live[i];
        assert live[..i + 1][..i] == live[..i];
        if name == w.name && t == w.rtype {
          log := log + [DeleteRecord(w.zoneId, w.id)];
        }
      }
      assert live[..|live|] == live;
    }

    /** `_apply_Update` as one step of a plan whose zone is known. */
    method DispatchUpdate(zoneName: string, e: Record, d: Record)
      requires ChangeOk(Update(e, d), zoneName) && zones.Some? && zoneName in zones.value
      modifies this
      ensures var s := ChangeStep(old(CacheOf()), remote, zoneName, Update(e, d));
        && CacheOf() == s.cache && log == old(log) + s.calls
    {
      ghost var c0 := CacheOf();
      UpdateStep(c0, remote, zoneName, e, d);
      ghost var z := ZonesStep(c0, remote);
      ghost var rs := RecordsStep(z.cache, remote, d.zoneName);
      ghost var u := UpdateCalls(e, d, rs.value, z.value[d.zoneName]);
      ghost var s := ChangeStep(c0, remote, zoneName, Update(e, d));
      assert s.cache == rs.cache && z.calls + rs.calls + u == s.calls;
      ApplyUpdate(e, d);
      AppendAssoc(old(log), z.calls, rs.calls, u);
    }

    /** `_apply_Create` as one step of a plan whose zone is known. */
    method DispatchCreate(zoneName: string, d: Record)
      requires ChangeOk(Create(d), zoneName) && zones.Some? && zoneName in zones.value
      modifies this
      ensures var s := ChangeStep(old(CacheOf()), remote, zoneName, Create(d));
        && CacheOf() == s.cache && log == old(log) + s.calls
    {
      ghost var c0 := CacheOf();
      ghost var ps := Posts(zones.value[zoneName], GenContents(d));
      assert ZonesStep(c0, remote) == Step(c0, c0.zones.value, []);
      assert ChangeStep(c0, remote, zoneName, Create(d)) == Step(c0, (), ps);
      ApplyCreate(d);
      assert old(log) + [] + ps == old(log) + ps;
    }

    /** `_apply_Delete` as one step of a plan whose zone is known. */
    method DispatchDelete(zoneName: string, e: Record)
      requires ChangeOk(Delete(e), zoneName) && zones.Some? && zoneName in zones.value
      modifies this
      ensures var s := ChangeStep(old(CacheOf()), remote, zoneName, Delete(e));
        && CacheOf() == s.cache && log == old(log) + s.calls
    {
      ghost var c0 := CacheOf();
      ghost var rs := RecordsStep(c0, remote, zoneName);
      ghost var dc := DeleteCalls(e, rs.value);
      assert ChangeStep(c0, remote, zoneName, Delete(e)) == Step(rs.cache, (), rs.calls + dc);
      ApplyDelete(e);
      AppendAssoc3(old(log), rs.calls, dc);
    }

    /** `getattr(self, '_apply_{}'.format(class_name))(change)`. */
    method ApplyChange(zoneName: string, change: Change)
      requires ChangeOk(change, zoneName) && zones.Some? && zoneName in zones.value
      modifies this
      ensures var s := ChangeStep(old(CacheOf()), remote, zoneName, change);
        && CacheOf() == s.cache && log == old(log) + s.calls
    {
      match change
      case Create(d) =>
        DispatchCreate(zoneName, d);
      case Update(e, d) =>
        DispatchUpdate(zoneName, e, d);
      case Delete(e) =>
        DispatchDelete(zoneName, e);
    }

    /** The loop of `_apply` over the plan's changes, in order. */
    method ApplyChanges(zoneName: string, changes: seq<Change>)
      requires forall i :: 0 <= i < |changes| ==> ChangeOk(changes[i], zoneName)
      requires zones.Some? && zoneName in zones.value
      modifies this
      ensures var s := ChangesStep(old(CacheOf()), remote, zoneName, changes);
        && CacheOf() == s.cache && log == old(log) + s.calls
    {
      for i := 0 to |changes|
        invariant var s := ChangesStep(old(CacheOf()), remote, zoneName, changes[..i]);
          && CacheOf() == s.cache && log == old(log) + s.calls
      {
        ghost var s := ChangesStep(old(CacheOf()), remote, zoneName, changes[..i]);
        ChangesStepLast(old(CacheOf()), remote, zoneName, changes, i);
        ApplyChange(zoneName, changes[i]);
        ghost var t := ChangeStep(s.cache, remote, zoneName, changes[i]);
        AppendAssoc3(old(log), s.calls, t.calls);
      }
      ChangesStepAll(old(CacheOf()), remote, zoneName, changes);
    }

    /**
     * `_apply`: create the zone when the service lacks it, dispatch the
     * changes in plan order, then drop the zone's record cache.
     */
    method Apply(zoneName: string, changes: seq<Change>, newZoneId: string)
      requires forall i :: 0 <= i < |changes| ==> ChangeOk(changes[i], zoneName)
      modifies this
      ensures var s := ApplyStep(old(CacheOf()), remote, zoneName, changes, newZoneId);
        && CacheOf() == s.cache && log == old(log) + s.calls
    {
      ghost var c0 := CacheOf();
      ghost var l0 := log;
      ApplyStepParts(c0, remote, zoneName, changes, newZoneId);
      var zs := Zones();
      ghost var z := ZonesStep(c0, remote);
      ghost var pre: seq<Call> := z.calls;
      if zoneName !in zs {
        log := log + [CreateZone(DropLast(zoneName))];
        zones := Some(zs[zoneName := newZoneId]);
        zoneRecords := zoneRecords[zoneName := []];
        pre := z.calls + [CreateZone(DropLast(zoneName))];
      }
      assert log == l0 + pre;
      ghost var seeded := CacheOf();
      ApplyChanges(zoneName, changes);
      ghost var s := ChangesStep(seeded, remote, zoneName, changes);
      AppendAssoc3(l0, pre, s.calls);
      zoneRecords := zoneRecords - {zoneName};
    }
  }
}
