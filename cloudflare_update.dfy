/**
 * What `_apply_Update` and `_apply_Delete` send to the service, as functions
 * of the change and of the live records listed for the zone, together with
 * the properties of those call sequences.
 */
module CloudflareUpdate {
  import opened Text
  import opened DnsRecord
  import opened CloudflareWire

  function Elements<T>(s: seq<T>): set<T> {
    set x | x in s
  }

  predicate NoDuplicates<T(==)>(s: seq<T>) {
    forall i, j :: 0 <= i < j < |s| ==> s[i] != s[j]
  }

  /**
   * The fragments of `{hash(c): c for c in ...}`, each once, in order of first
   * occurrence.
   */
  function Distinct(fs: seq<Fragment>): (r: seq<Fragment>)
    ensures Elements(r) == Elements(fs)
    ensures NoDuplicates(r)
  {
    if fs == [] then []
    else
      var d := Distinct(fs[..|fs| - 1]);
      var f := fs[|fs| - 1];
      assert fs == fs[..|fs| - 1] + [f];
      assert Elements(fs) == Elements(fs[..|fs| - 1]) + {f};
      assert f in d ==> Elements(d) + {f} == Elements(d);
      assert Elements(d + [f]) == Elements(d) + {f};
      if f in d then d else d + [f]
  }

  /**
   * The adds loop: the wanted fragments, in order, that are not among the
   * existing ones.
   */
  function Adds(want: seq<Fragment>, have: set<Fragment>): seq<Fragment>
  {
    if want == [] then []
    else
      var f := want[|want| - 1];
      Adds(want[..|want| - 1], have) + (if f in have then [] else [f])
  }

  /** A fragment is added exactly when it is wanted and not already there; none twice. */
  lemma {:induction false} AddsSpec(want: seq<Fragment>, have: set<Fragment>)
    requires NoDuplicates(want)
    ensures forall f :: f in Adds(want, have) <==> f in want && f !in have
    ensures NoDuplicates(Adds(want, have))
  {
    if want != [] {
      var init := want[..|want| - 1];
      assert want == init + [want[|want| - 1]];
      AddsSpec(init, have);
    }
  }

  /** Nothing is added when every wanted fragment is already there. */
  lemma {:induction false} AddsNone(want: seq<Fragment>, have: set<Fragment>)
    requires forall f :: f in want ==> f in have
    ensures Adds(want, have) == []
  {
    if want != [] {
      assert want[|want| - 1] in want;
      AddsNone(want[..|want| - 1], have);
    }
  }

  /** The key set a fragment dict has: what `_apply_Update` projects live records onto. */
  datatype Shape = ContentKeys | CaaKeys | MxKeys

  function ShapeOf(p: Payload): Shape {
    match p
    case Content(_) => ContentKeys
    case CaaData(_) => CaaKeys
    case MxContent(_, _) => MxKeys
  }

  /** `{k: record[k] for k in keys}`: a live record restricted to the given key set. */
  function Project(w: WireRecord, shape: Shape): (f: Fragment)
    ensures f.name == w.name && f.rtype == w.rtype && f.ttl == w.ttl
    ensures ShapeOf(f.payload) == shape
  {
    var p := match shape
      case ContentKeys => Content(w.content)
      case CaaKeys => CaaData(w.data)
      case MxKeys => MxContent(w.priority, w.content);
    Fragment(p, w.name, w.rtype, w.ttl)
  }

  /** The projection, with a dot appended to the content of CNAME, MX and NS records. */
  function Fingerprint(w: WireRecord, shape: Shape, t: string): Fragment {
    var f := Project(w, shape);
    if t == "CNAME" || t == "MX" || t == "NS" then f.(payload := AppendDot(f.payload)) else f
  }

  /**
   * Projecting the record stored for a fragment onto the fragment's key set
   * gives the fragment back, except that hostname content lacks its dot.
   */
  lemma ProjectStored(f: Fragment)
    ensures !HostnameType(f.rtype) ==> Project(Stored(f), ShapeOf(f.payload)) == f
    ensures HostnameType(f.rtype) && DottedPayload(f.payload) ==>
      AppendDot(Project(Stored(f), ShapeOf(f.payload)).payload) == f.payload
  {
  }

  /**
   * A live record stored for a fragment of type `t` fingerprints back to
   * that fragment: the dot the service drops is the dot the fingerprint adds.
   */
  lemma FingerprintStored(f: Fragment)
    requires HostnameType(f.rtype) ==> DottedPayload(f.payload)
    ensures Fingerprint(Stored(f), ShapeOf(f.payload), f.rtype) == f
  {
    ProjectStored(f);
  }

  predicate Matches(w: WireRecord, name: string, t: string) {
    name == w.name && t == w.rtype
  }

  /** A live record of the change's name and type whose content is not wanted. */
  predicate Stale(w: WireRecord, name: string, t: string, shape: Shape, wanted: set<Fragment>) {
    Matches(w, name, t) && Fingerprint(w, shape, t) !in wanted
  }

  /** The result of the scan over live records: calls so far and adds still pending. */
  datatype ScanResult = ScanResult(calls: seq<Call>, pending: seq<Fragment>)

  /**
   * The loop over live records: a stale record gets a PUT with the next
   * pending add, or a DELETE once the adds have run out.
   */
  function Scan(live: seq<WireRecord>, name: string, t: string, shape: Shape,
                wanted: set<Fragment>, adds: seq<Fragment>): ScanResult
  {
    if live == [] then ScanResult([], adds)
    else
      var s := Scan(live[..|live| - 1], name, t, shape, wanted, adds);
      var w := live[|live| - 1];
      if !Stale(w, name, t, shape, wanted) then s
      else if s.pending != [] then ScanResult(s.calls + [Put(w.zoneId, w.id, s.pending[0])], s.pending[1..])
      else ScanResult(s.calls + [DeleteRecord(w.zoneId, w.id)], s.pending)
  }

  /** The (zone id, record id) of each stale live record, in listing order. */
  function StaleTargets(live: seq<WireRecord>, name: string, t: string, shape: Shape,
                        wanted: set<Fragment>): seq<(string, string)>
  {
    if live == [] then []
    else
      var w := live[|live| - 1];
      StaleTargets(live[..|live| - 1], name, t, shape, wanted)
        + (if Stale(w, name, t, shape, wanted) then [(w.zoneId, w.id)] else [])
  }

  /** The (zone id, record id) of each live record of the given name and type. */
  function MatchTargets(live: seq<WireRecord>, name: string, t: string): seq<(string, string)>
  {
    if live == [] then []
    else
      var w := live[|live| - 1];
      MatchTargets(live[..|live| - 1], name, t) + (if Matches(w, name, t) then [(w.zoneId, w.id)] else [])
  }

  /** The bodies of the PUT calls, in order. */
  function PutBodies(calls: seq<Call>): seq<Fragment> {
    if calls == [] then []
    else
      var c := calls[|calls| - 1];
      PutBodies(calls[..|calls| - 1]) + (if c.Put? then [c.body] else [])
  }

  /** The bodies of the POST calls, in order. */
  function PostBodies(calls: seq<Call>): seq<Fragment> {
    if calls == [] then []
    else
      var c := calls[|calls| - 1];
      PostBodies(calls[..|calls| - 1]) + (if c.Post? then [c.body] else [])
  }

  function DeleteCount(calls: seq<Call>): nat {
    if calls == [] then 0
    else DeleteCount(calls[..|calls| - 1]) + (if calls[|calls| - 1].DeleteRecord? then 1 else 0)
  }

  /** The records that PUT or DELETE calls address, in order. */
  function Targets(calls: seq<Call>): seq<(string, string)> {
    if calls == [] then []
    else
      var c := calls[|calls| - 1];
      Targets(calls[..|calls| - 1]) + (if c.Put? || c.DeleteRecord? then [(c.zoneId, c.rid)] else [])
  }

  /** One POST per fragment, in order. */
  function Posts(zoneId: string, fs: seq<Fragment>): (cs: seq<Call>)
    ensures |cs| == |fs|
  {
    if fs == [] then [] else Posts(zoneId, fs[..|fs| - 1]) + [Post(zoneId, fs[|fs| - 1])]
  }

  /** The i-th call of a run of POSTs carries the i-th fragment. */
  lemma {:induction false} PostsElements(zoneId: string, fs: seq<Fragment>)
    ensures forall i :: 0 <= i < |fs| ==> Posts(zoneId, fs)[i] == Post(zoneId, fs[i])
  {
    if fs != [] {
      PostsElements(zoneId, fs[..|fs| - 1]);
    }
  }

  /** The call filters distribute over concatenation of call sequences. */
  lemma {:induction false} FiltersAppend(a: seq<Call>, b: seq<Call>)
    ensures PutBodies(a + b) == PutBodies(a) + PutBodies(b)
    ensures PostBodies(a + b) == PostBodies(a) + PostBodies(b)
    ensures DeleteCount(a + b) == DeleteCount(a) + DeleteCount(b)
    ensures Targets(a + b) == Targets(a) + Targets(b)
    decreases |b|
  {
    if b == [] {
      assert a + b == a;
    } else {
      var init := b[..|b| - 1];
      assert (a + b)[..|a + b| - 1] == a + init;
      assert (a + b)[|a + b| - 1] == b[|b| - 1];
      FiltersAppend(a, init);
    }
  }

  /** A run of POSTs carries exactly the given fragments and addresses no live record. */
  lemma {:induction false} PostsFilters(zoneId: string, fs: seq<Fragment>)
    ensures PostBodies(Posts(zoneId, fs)) == fs
    ensures PutBodies(Posts(zoneId, fs)) == []
    ensures DeleteCount(Posts(zoneId, fs)) == 0
    ensures Targets(Posts(zoneId, fs)) == []
  {
    if fs != [] {
      var init := fs[..|fs| - 1];
      PostsFilters(zoneId, init);
      FiltersAppend(Posts(zoneId, init), [Post(zoneId, fs[|fs| - 1])]);
      assert fs == init + [fs[|fs| - 1]];
    }
  }

  /** One step of the scan, on the last live record. */
  lemma ScanLast(live: seq<WireRecord>, name: string, t: string, shape: Shape,
                 wanted: set<Fragment>, adds: seq<Fragment>)
    requires live != []
    ensures var s := Scan(live[..|live| - 1], name, t, shape, wanted, adds);
      var w := live[|live| - 1];
      Scan(live, name, t, shape, wanted, adds) ==
        if !Stale(w, name, t, shape, wanted) then s
        else if s.pending != [] then ScanResult(s.calls + [Put(w.zoneId, w.id, s.pending[0])], s.pending[1..])
        else ScanResult(s.calls + [DeleteRecord(w.zoneId, w.id)], s.pending)
  {
  }

  /**
   * The accounting a scan keeps: its PUTs carry the leading adds and the rest
   * is pending; it addresses the records `stale`, each by one call; it
   * deletes only once the adds have run out; it never POSTs.
   */
  predicate Accounted(s: ScanResult, adds: seq<Fragment>, stale: seq<(string, string)>) {
    && PutBodies(s.calls) + s.pending == adds
    && Targets(s.calls) == stale
    && |PutBodies(s.calls)| + DeleteCount(s.calls) == |stale|
    && (DeleteCount(s.calls) == 0 || s.pending == [])
    && PostBodies(s.calls) == []
  }

  /** The call filters on a sequence extended by one call. */
  lemma FiltersSnoc(a: seq<Call>, c: Call)
    ensures PutBodies(a + [c]) == PutBodies(a) + (if c.Put? then [c.body] else [])
    ensures PostBodies(a + [c]) == PostBodies(a) + (if c.Post? then [c.body] else [])
    ensures DeleteCount(a + [c]) == DeleteCount(a) + (if c.DeleteRecord? then 1 else 0)
    ensures Targets(a + [c]) == Targets(a) + (if c.Put? || c.DeleteRecord? then [(c.zoneId, c.rid)] else [])
  {
    assert (a + [c])[..|a|] == a;
  }

  /** A stale record swapped to the next pending add keeps the accounting. */
  lemma AccountedPut(s: ScanResult, adds: seq<Fragment>, stale: seq<(string, string)>, w: WireRecord)
    requires Accounted(s, adds, stale) && s.pending != []
    ensures Accounted(ScanResult(s.calls + [Put(w.zoneId, w.id, s.pending[0])], s.pending[1..]), adds, stale + [(w.zoneId, w.id)])
  {
    var c := Put(w.zoneId, w.id, s.pending[0]);
    FiltersSnoc(s.calls, c);
    var pb := PutBodies(s.calls);
    assert [s.pending[0]] + s.pending[1..] == s.pending;
    assert pb + [s.pending[0]] + s.pending[1..] == pb + ([s.pending[0]] + s.pending[1..]);
  }

  /** A stale record deleted once the adds have run out keeps the accounting. */
  lemma AccountedDelete(s: ScanResult, adds: seq<Fragment>, stale: seq<(string, string)>, w: WireRecord)
    requires Accounted(s, adds, stale) && s.pending == []
    ensures Accounted(ScanResult(s.calls + [DeleteRecord(w.zoneId, w.id)], s.pending), adds, stale + [(w.zoneId, w.id)])
  {
    FiltersSnoc(s.calls, DeleteRecord(w.zoneId, w.id));
  }

  /**
   * The scan addresses exactly the stale live records, each once and in
   * order; its PUTs carry the leading adds and what is left pending is the
   * rest; every stale record beyond the adds is deleted; it never POSTs.
   */
  lemma {:induction false} ScanAccounting(live: seq<WireRecord>, name: string, t: string, shape: Shape,
                                          wanted: set<Fragment>, adds: seq<Fragment>)
    ensures Accounted(Scan(live, name, t, shape, wanted, adds), adds, StaleTargets(live, name, t, shape, wanted))
  {
    if live == [] {
      assert Scan(live, name, t, shape, wanted, adds) == ScanResult([], adds);
    } else {
      var init := live[..|live| - 1];
      var w := live[|live| - 1];
      ScanAccounting(init, name, t, shape, wanted, adds);
      ScanLast(live, name, t, shape, wanted, adds);
      var s := Scan(init, name, t, shape, wanted, adds);
      var stale := StaleTargets(init, name, t, shape, wanted);
      if Stale(w, name, t, shape, wanted) {
        assert StaleTargets(live, name, t, shape, wanted) == stale + [(w.zoneId, w.id)];
        if s.pending != [] {
          AccountedPut(s, adds, stale, w);
        } else {
          AccountedDelete(s, adds, stale, w);
        }
      } else {
        assert StaleTargets(live, name, t, shape, wanted) == stale + [];
      }
    }
  }

  function Min(a: int, b: int): int { if a <= b then a else b }

  /**
   * With S stale live records and A adds the scan issues min(A, S) PUTs and
   * max(0, S - A) DELETEs, and leaves max(0, A - S) adds pending.
   */
  lemma {:induction false} ScanCounts(live: seq<WireRecord>, name: string, t: string, shape: Shape,
                                      wanted: set<Fragment>, adds: seq<Fragment>)
    ensures var s := Scan(live, name, t, shape, wanted, adds);
      var stale := |StaleTargets(live, name, t, shape, wanted)|;
      && |PutBodies(s.calls)| == Min(|adds|, stale)
      && DeleteCount(s.calls) == Max(0, stale - |adds|)
      && |s.pending| == Max(0, |adds| - stale)
  {
    ScanAccounting(live, name, t, shape, wanted, adds);
    var s := Scan(live, name, t, shape, wanted, adds);
    var puts := |PutBodies(s.calls)|;
    assert puts + |s.pending| == |adds|;
  }

  /** The fragments `_apply_Update` wants: `new_contents`. */
  function NewContents(desired: Record): seq<Fragment>
    requires WellFormed(desired)
  {
    Distinct(GenContents(desired))
  }

  /** The adds of an update: new fragments that the existing record does not have. */
  function UpdateAdds(existing: Record, desired: Record): seq<Fragment>
    requires WellFormed(existing) && WellFormed(desired)
  {
    Adds(NewContents(desired), Elements(GenContents(existing)))
  }

  /** The key set of the first existing fragment. */
  function UpdateShape(existing: Record): Shape
    requires WellFormed(existing) && |GenContents(existing)| > 0
  {
    ShapeOf(GenContents(existing)[0].payload)
  }

  /** The key set taken from the first fragment is fixed by the record type. */
  lemma UpdateShapeByType(existing: Record)
    requires WellFormed(existing) && |GenContents(existing)| > 0
    ensures UpdateShape(existing) == match existing.rtype
      case CAA => CaaKeys
      case MX => MxKeys
      case _ => ContentKeys
  {
  }

  /** Every fragment of a record has the key set its type fixes. */
  lemma GenContentsShape(r: Record)
    requires WellFormed(r)
    ensures forall f :: f in GenContents(r) ==> ShapeOf(f.payload) == match r.rtype
      case CAA => CaaKeys
      case MX => MxKeys
      case _ => ContentKeys
  {
    var fs := GenContents(r);
    forall f | f in fs ensures ShapeOf(f.payload) == match r.rtype
      case CAA => CaaKeys
      case MX => MxKeys
      case _ => ContentKeys
    {
      var i :| 0 <= i < |fs| && fs[i] == f;
    }
  }

  function UpdateScan(existing: Record, desired: Record, live: seq<WireRecord>): ScanResult
    requires WellFormed(existing) && WellFormed(desired) && |GenContents(existing)| > 0
  {
    Scan(live, DropLast(RecordFqdn(desired)), TypeName(desired.rtype), UpdateShape(existing),
         Elements(NewContents(desired)), UpdateAdds(existing, desired))
  }

  /** The stale live records of an update. */
  function UpdateStale(existing: Record, desired: Record, live: seq<WireRecord>): seq<(string, string)>
    requires WellFormed(existing) && WellFormed(desired) && |GenContents(existing)| > 0
  {
    StaleTargets(live, DropLast(RecordFqdn(desired)), TypeName(desired.rtype), UpdateShape(existing),
                 Elements(NewContents(desired)))
  }

  /** `_apply_Update`: the scan's PUTs and DELETEs, then a POST per add still pending. */
  function UpdateCalls(existing: Record, desired: Record, live: seq<WireRecord>, zoneId: string): seq<Call>
    requires WellFormed(existing) && WellFormed(desired) && |GenContents(existing)| > 0
  {
    var s := UpdateScan(existing, desired, live);
    s.calls + Posts(zoneId, s.pending)
  }

  /** A scan that accounts for its adds, followed by a POST per pending add. */
  lemma AccountedPosts(s: ScanResult, adds: seq<Fragment>, stale: seq<(string, string)>, zoneId: string)
    requires Accounted(s, adds, stale)
    ensures var calls := s.calls + Posts(zoneId, s.pending);
      && PutBodies(calls) + PostBodies(calls) == adds
      && Targets(calls) == stale
      && |PutBodies(calls)| == Min(|adds|, |stale|)
      && DeleteCount(calls) == Max(0, |stale| - |adds|)
      && |PostBodies(calls)| == Max(0, |adds| - |stale|)
  {
    PostsFilters(zoneId, s.pending);
    FiltersAppend(s.calls, Posts(zoneId, s.pending));
    assert |PutBodies(s.calls)| + |s.pending| == |adds|;
    assert PutBodies(s.calls) + [] == PutBodies(s.calls);
    assert Targets(s.calls) + [] == Targets(s.calls);
  }

  /**
   * Every add is sent exactly once, first as PUTs then as POSTs; only the
   * stale live records are addressed, each by one call; and with S stale
   * records and A adds there are min(A, S) PUTs, max(0, S - A) DELETEs and
   * max(0, A - S) POSTs.
   */
  lemma UpdateCallsAccounting(existing: Record, desired: Record, live: seq<WireRecord>, zoneId: string)
    requires WellFormed(existing) && WellFormed(desired) && |GenContents(existing)| > 0
    ensures var calls := UpdateCalls(existing, desired, live, zoneId);
      var adds := UpdateAdds(existing, desired);
      var stale := |UpdateStale(existing, desired, live)|;
      && PutBodies(calls) + PostBodies(calls) == adds
      && Targets(calls) == UpdateStale(existing, desired, live)
      && |PutBodies(calls)| == Min(|adds|, stale)
      && DeleteCount(calls) == Max(0, stale - |adds|)
      && |PostBodies(calls)| == Max(0, |adds| - stale)
  {
    var name, t, shape := DropLast(RecordFqdn(desired)), TypeName(desired.rtype), UpdateShape(existing);
    var wanted, adds := Elements(NewContents(desired)), UpdateAdds(existing, desired);
    ScanAccounting(live, name, t, shape, wanted, adds);
    AccountedPosts(Scan(live, name, t, shape, wanted, adds), adds, StaleTargets(live, name, t, shape, wanted), zoneId);
  }

  /** The adds are exactly the new fragments the existing record lacks, each once. */
  lemma UpdateAddsSpec(existing: Record, desired: Record)
    requires WellFormed(existing) && WellFormed(desired)
    ensures forall f :: f in UpdateAdds(existing, desired) <==> f in GenContents(desired) && f !in GenContents(existing)
    ensures NoDuplicates(UpdateAdds(existing, desired))
  {
    var want := NewContents(desired);
    AddsSpec(want, Elements(GenContents(existing)));
    forall f ensures f in want <==> f in GenContents(desired) {
      assert f in want <==> f in Elements(want);
    }
  }

  lemma {:induction false} NoStaleScan(live: seq<WireRecord>, name: string, t: string, shape: Shape,
                                       wanted: set<Fragment>, adds: seq<Fragment>)
    requires forall w :: w in live ==> !Stale(w, name, t, shape, wanted)
    ensures Scan(live, name, t, shape, wanted, adds) == ScanResult([], adds)
  {
    if live != [] {
      assert live[|live| - 1] in live;
      NoStaleScan(live[..|live| - 1], name, t, shape, wanted, adds);
    }
  }

  /**
   * When existing and new encode to the same fragments and every live record
   * of the name and type already projects onto one of them, nothing is sent.
   */
  lemma UpdateNoOp(existing: Record, desired: Record, live: seq<WireRecord>, zoneId: string)
    requires WellFormed(existing) && WellFormed(desired) && |GenContents(existing)| > 0
    requires Elements(GenContents(existing)) == Elements(GenContents(desired))
    requires forall w :: w in live && Matches(w, DropLast(RecordFqdn(desired)), TypeName(desired.rtype)) ==>
      Fingerprint(w, UpdateShape(existing), TypeName(desired.rtype)) in GenContents(desired)
    ensures UpdateCalls(existing, desired, live, zoneId) == []
  {
    var want := NewContents(desired);
    var have := Elements(GenContents(existing));
    forall f | f in want ensures f in have {
      assert f in Elements(want);
    }
    AddsNone(want, have);
    NoStaleScan(live, DropLast(RecordFqdn(desired)), TypeName(desired.rtype), UpdateShape(existing),
                Elements(NewContents(desired)), UpdateAdds(existing, desired));
  }

  /**
   * No record of the listing the service keeps for the new record is stale
   * for an update to that record: each fingerprints back to a wanted fragment.
   */
  lemma StoredNotStale(existing: Record, desired: Record)
    requires WellFormed(existing) && WellFormed(desired) && |GenContents(existing)| > 0
    requires existing.rtype == desired.rtype && HostnamesDotted(desired)
    ensures forall w :: w in StoredAll(GenContents(desired)) ==>
      !Stale(w, DropLast(RecordFqdn(desired)), TypeName(desired.rtype), UpdateShape(existing), Elements(NewContents(desired)))
  {
    var fs := GenContents(desired);
    var live := StoredAll(fs);
    var name, t := DropLast(RecordFqdn(desired)), TypeName(desired.rtype);
    UpdateShapeByType(existing);
    GenContentsShape(desired);
    GenContentsDotted(desired);
    forall w | w in live && Matches(w, name, t)
      ensures Fingerprint(w, UpdateShape(existing), t) in Elements(NewContents(desired))
    {
      var i :| 0 <= i < |live| && live[i] == w;
      assert fs[i] in fs;
      FingerprintStored(fs[i]);
      assert fs[i] in Elements(fs);
    }
  }

  /**
   * An update planned again from the service's listing, once the service
   * holds what the first run sent, makes no request: its existing record now
   * encodes to the same fragments as the new one.
   */
  lemma UpdateAgainstStored(existing: Record, desired: Record, zoneId: string)
    requires WellFormed(existing) && WellFormed(desired) && |GenContents(existing)| > 0
    requires existing.rtype == desired.rtype && HostnamesDotted(desired)
    requires Elements(GenContents(existing)) == Elements(GenContents(desired))
    ensures UpdateCalls(existing, desired, StoredAll(GenContents(desired)), zoneId) == []
  {
    var live := StoredAll(GenContents(desired));
    var name, t := DropLast(RecordFqdn(desired)), TypeName(desired.rtype);
    StoredNotStale(existing, desired);
    forall w | w in live && Matches(w, name, t)
      ensures Fingerprint(w, UpdateShape(existing), t) in GenContents(desired)
    {
      assert !Stale(w, name, t, UpdateShape(existing), Elements(NewContents(desired)));
    }
    UpdateNoOp(existing, desired, live, zoneId);
  }

  /**
   * The same update change applied a second time, against the listing the
   * service keeps after the first run, addresses no live record but POSTs
   * every add again: the adds come from the change's existing record, not
   * from the service.
   */
  lemma ReapplyPosts(existing: Record, desired: Record, zoneId: string)
    requires WellFormed(existing) && WellFormed(desired) && |GenContents(existing)| > 0
    requires existing.rtype == desired.rtype && HostnamesDotted(desired)
    ensures UpdateCalls(existing, desired, StoredAll(GenContents(desired)), zoneId) == Posts(zoneId, UpdateAdds(existing, desired))
  {
    StoredNotStale(existing, desired);
    NoStaleScan(StoredAll(GenContents(desired)), DropLast(RecordFqdn(desired)), TypeName(desired.rtype),
                UpdateShape(existing), Elements(NewContents(desired)), UpdateAdds(existing, desired));
  }

  /**
   * An ALIAS update compares the type name "ALIAS" with the wire type of live
   * records, which the service lists as "CNAME": no live record is ever
   * addressed and every add is POSTed.
   */
  lemma AliasUpdateOnlyPosts(existing: Record, desired: Record, live: seq<WireRecord>, zoneId: string)
    requires WellFormed(existing) && WellFormed(desired) && |GenContents(existing)| > 0
    requires desired.rtype == ALIAS
    requires forall w :: w in live ==> w.rtype != "ALIAS"
    ensures UpdateCalls(existing, desired, live, zoneId) == Posts(zoneId, UpdateAdds(existing, desired))
  {
    NoStaleScan(live, DropLast(RecordFqdn(desired)), TypeName(desired.rtype), UpdateShape(existing),
                Elements(NewContents(desired)), UpdateAdds(existing, desired));
  }

  /** `_apply_Delete`: one DELETE per live record of the record's name and type. */
  function DeleteCalls(existing: Record, live: seq<WireRecord>): seq<Call>
  {
    if live == [] then []
    else
      var w := live[|live| - 1];
      DeleteCalls(existing, live[..|live| - 1])
        + (if Matches(w, DropLast(RecordFqdn(existing)), TypeName(existing.rtype)) then [DeleteRecord(w.zoneId, w.id)] else [])
  }

  /** Deleting issues only DELETEs, exactly one for each matching live record, in order. */
  lemma {:induction false} DeleteCallsSpec(existing: Record, live: seq<WireRecord>)
    ensures var calls := DeleteCalls(existing, live);
      && (forall c :: c in calls ==> c.DeleteRecord?)
      && Targets(calls) == MatchTargets(live, DropLast(RecordFqdn(existing)), TypeName(existing.rtype))
      && DeleteCount(calls) == |calls|
  {
    if live != [] {
      var init := live[..|live| - 1];
      DeleteCallsSpec(existing, init);
      var w := live[|live| - 1];
      var tail := if Matches(w, DropLast(RecordFqdn(existing)), TypeName(existing.rtype)) then [DeleteRecord(w.zoneId, w.id)] else [];
      FiltersAppend(DeleteCalls(existing, init), tail);
      if tail != [] {
        assert tail[..0] == [];
      }
    }
  }

  /** Removing duplicates from a sequence that has none changes nothing. */
  lemma {:induction false} DistinctNoDuplicates(fs: seq<Fragment>)
    requires NoDuplicates(fs)
    ensures Distinct(fs) == fs
  {
    if fs != [] {
      var init := fs[..|fs| - 1];
      DistinctNoDuplicates(init);
      assert fs[|fs| - 1] !in Elements(init);
      assert fs == init + [fs[|fs| - 1]];
    }
  }

  /** Everything wanted is added when none of it is there yet. */
  lemma {:induction false} AddsAll(want: seq<Fragment>, have: set<Fragment>)
    requires forall f :: f in want ==> f !in have
    ensures Adds(want, have) == want
  {
    if want != [] {
      var init := want[..|want| - 1];
      assert want[|want| - 1] in want;
      AddsAll(init, have);
      assert want == init + [want[|want| - 1]];
    }
  }

  /**
   * Changing a CNAME's value when one live record of that name still lists
   * some other content: exactly one PUT, on that record, carrying the new
   * fragment; no POST and no DELETE.
   */
  lemma CnameSwap(existing: Record, desired: Record, w: WireRecord, zoneId: string)
    requires existing.rtype == CNAME && desired.rtype == CNAME
    requires WellFormed(existing) && WellFormed(desired)
    requires GenContents(existing) != GenContents(desired)
    requires Matches(w, DropLast(RecordFqdn(desired)), "CNAME")
    requires Fingerprint(w, ContentKeys, "CNAME") !in GenContents(desired)
    ensures UpdateCalls(existing, desired, [w], zoneId) == [Put(w.zoneId, w.id, GenContents(desired)[0])]
  {
    GenContentsSingle(existing);
    GenContentsSingle(desired);
    var oldF := GenContents(existing)[0];
    var newF := GenContents(desired)[0];
    var live := [w];
    assert NewContents(desired) == [newF] by {
      DistinctNoDuplicates([newF]);
    }
    assert Elements([newF]) == {newF};
    assert UpdateAdds(existing, desired) == [newF] by {
      assert Elements([oldF]) == {oldF};
      AddsAll([newF], {oldF});
    }
    assert UpdateShape(existing) == ContentKeys;
    assert UpdateScan(existing, desired, live) == ScanResult([Put(w.zoneId, w.id, newF)], []) by {
      ScanLast(live, DropLast(RecordFqdn(desired)), "CNAME", ContentKeys, {newF}, [newF]);
      assert live[..0] == [];
    }
  }

  /**
   * Three adds against one stale live record: one PUT swaps it to the first
   * add and two POSTs create the others.
   */
  lemma ThreeAddsOneStale(existing: Record, desired: Record, live: seq<WireRecord>, zoneId: string)
    requires WellFormed(existing) && WellFormed(desired) && |GenContents(existing)| > 0
    requires |UpdateAdds(existing, desired)| == 3 && |UpdateStale(existing, desired, live)| == 1
    ensures var calls := UpdateCalls(existing, desired, live, zoneId);
      && PutBodies(calls) == UpdateAdds(existing, desired)[..1]
      && PostBodies(calls) == UpdateAdds(existing, desired)[1..]
      && DeleteCount(calls) == 0
  {
    UpdateCallsAccounting(existing, desired, live, zoneId);
    var calls := UpdateCalls(existing, desired, live, zoneId);
    var adds := UpdateAdds(existing, desired);
    assert adds == PutBodies(calls) + PostBodies(calls);
    assert adds[..1] == PutBodies(calls);
  }
}
