/**
 * The Cloudflare wire codec: `_data_for_*` turns a group of listed wire records
 * of one name and type into record data, `_contents_for_*` and `_gen_contents`
 * turn a record into the fragments sent to the service.
 */
module CloudflareWire {
  import opened Text
  import opened DnsRecord

  /** The provider-enforced TTL floor (`MIN_TTL`). */
  const MIN_TTL: int := 120

  function Max(a: int, b: int): int {
    if a >= b then a else b
  }

  /** The type-specific part of a fragment: `{content}`, `{data}` or `{priority, content}`. */
  datatype Payload =
    | Content(content: string)
    | CaaData(data: CaaValue)
    | MxContent(priority: int, content: string)

  /**
   * A fragment as sent in a POST or PUT body: the payload decorated with
   * `name`, `type` and `ttl`. Two fragments are the same content exactly when
   * they are equal, which is what the source's hash of the key-sorted JSON
   * dump is used for.
   */
  datatype Fragment = Fragment(payload: Payload, name: string, rtype: string, ttl: int)

  /** A record as the service lists it; every field the provider reads is present. */
  datatype WireRecord = WireRecord(
    id: string, zoneId: string, name: string, rtype: string, ttl: int,
    content: string, priority: int, data: CaaValue)

  /**
   * The remote calls the provider makes, in the order it makes them: the two
   * paged listings, record create (POST), update (PUT) and delete by id, and
   * zone creation.
   */
  datatype Call =
    | ListZones(page: nat)
    | ListRecords(zoneId: string, page: nat)
    | Post(zoneId: string, body: Fragment)
    | Put(zoneId: string, rid: string, body: Fragment)
    | DeleteRecord(zoneId: string, rid: string)
    | CreateZone(name: string)

  /** `_data_for_<type>`: decode a non-empty group of same-name, same-type wire records. */
  function DataFor(t: RType, records: seq<WireRecord>): (d: RecordData)
    requires |records| > 0
    ensures d.ttl == records[0].ttl
    ensures WellTyped(t, d.values)
    ensures ValueCount(d.values) == if t == CNAME || t == ALIAS then 1 else |records|
  {
    var ttl := records[0].ttl;
    match t
    case A | AAAA | SPF =>
      RecordData(ttl, Multi(seq(|records|, i requires 0 <= i < |records| => records[i].content)))
    case TXT =>
      RecordData(ttl, Multi(seq(|records|, i requires 0 <= i < |records| => Escape(records[i].content))))
    case CAA =>
      RecordData(ttl, CaaValues(seq(|records|, i requires 0 <= i < |records| => records[i].data)))
    case CNAME | ALIAS =>
      RecordData(ttl, Single(records[0].content + "."))
    case MX =>
      RecordData(ttl, MxValues(seq(|records|, i requires 0 <= i < |records| =>
        MxValue(records[i].priority, records[i].content + "."))))
    case NS =>
      RecordData(ttl, Multi(seq(|records|, i requires 0 <= i < |records| => records[i].content + ".")))
  }

  /** `_contents_for_<type>`: one payload per value, a single one for CNAME. */
  function ContentsFor(t: RType, v: Values): (ps: seq<Payload>)
    requires WellTyped(t, v)
    ensures |ps| == ValueCount(v)
  {
    match t
    case A | AAAA | NS | SPF =>
      seq(|v.values|, i requires 0 <= i < |v.values| => Content(v.values[i]))
    case CAA =>
      seq(|v.caa|, i requires 0 <= i < |v.caa| =>
        CaaData(CaaValue(v.caa[i].flags, v.caa[i].tag, v.caa[i].value)))
    case TXT =>
      seq(|v.values|, i requires 0 <= i < |v.values| => Content(Unescape(v.values[i])))
    case CNAME | ALIAS =>
      [Content(v.value)]
    case MX =>
      seq(|v.mx|, i requires 0 <= i < |v.mx| => MxContent(v.mx[i].preference, v.mx[i].exchange))
  }

  /** Cloudflare has no ALIAS type: a root CNAME stands for it on the wire. */
  function WireRType(t: RType): RType {
    if t == ALIAS then CNAME else t
  }

  /** `_gen_contents`: the payloads decorated with name, wire type and clamped TTL. */
  function GenContents(r: Record): (fs: seq<Fragment>)
    requires WellFormed(r)
  {
    var name := DropLast(RecordFqdn(r));
    var t := WireRType(r.rtype);
    var ttl := Max(MIN_TTL, r.data.ttl);
    var ps := ContentsFor(t, r.data.values);
    seq(|ps|, i requires 0 <= i < |ps| => Fragment(ps[i], name, TypeName(t), ttl))
  }

  /** Every fragment carries the clamped TTL, the fqdn without its dot, and the wire type. */
  lemma GenContentsDecoration(r: Record)
    requires WellFormed(r)
    ensures forall f :: f in GenContents(r) ==>
      && f.ttl == Max(MIN_TTL, r.data.ttl)
      && f.ttl >= MIN_TTL
      && f.name == DropLast(RecordFqdn(r))
      && f.rtype == (if r.rtype == ALIAS then "CNAME" else TypeName(r.rtype))
  {
    var fs := GenContents(r);
    forall f | f in fs
      ensures f.rtype == (if r.rtype == ALIAS then "CNAME" else TypeName(r.rtype))
    {
      var i :| 0 <= i < |fs| && fs[i] == f;
      assert f.rtype == TypeName(WireRType(r.rtype));
    }
  }

  /** One fragment per value, and exactly one for CNAME and ALIAS. */
  lemma GenContentsCount(r: Record)
    requires WellFormed(r)
    ensures |GenContents(r)| == if r.rtype == CNAME || r.rtype == ALIAS then 1 else ValueCount(r.data.values)
  {
  }

  /** A CNAME or ALIAS record encodes to a single CNAME fragment carrying its value. */
  lemma GenContentsSingle(r: Record)
    requires WellFormed(r) && (r.rtype == CNAME || r.rtype == ALIAS)
    ensures GenContents(r) == [Fragment(Content(r.data.values.value), DropLast(RecordFqdn(r)), "CNAME", Max(MIN_TTL, r.data.ttl))]
  {
    var fs := GenContents(r);
    assert WireRType(r.rtype) == CNAME;
    assert ContentsFor(CNAME, r.data.values) == [Content(r.data.values.value)];
    assert TypeName(CNAME) == "CNAME";
    assert |fs| == 1;
    assert fs[0] == Fragment(Content(r.data.values.value), DropLast(RecordFqdn(r)), "CNAME", Max(MIN_TTL, r.data.ttl));
  }

  /** Decoding a multi-value group keeps the listing order and the first record's TTL. */
  lemma DataForMultiple(t: RType, records: seq<WireRecord>)
    requires |records| > 0 && (t == A || t == AAAA || t == SPF)
    ensures DataFor(t, records).ttl == records[0].ttl
    ensures DataFor(t, records).values.Multi?
    ensures |DataFor(t, records).values.values| == |records|
    ensures forall i :: 0 <= i < |records| ==> DataFor(t, records).values.values[i] == records[i].content
  {
  }

  /** The payload of a listed wire record, read with the keys its type uses. */
  function WirePayload(w: WireRecord, t: RType): Payload {
    match t
    case CAA => CaaData(w.data)
    case MX => MxContent(w.priority, w.content)
    case _ => Content(w.content)
  }

  /** `content += '.'`, on payloads that have a `content` key. */
  function AppendDot(p: Payload): Payload {
    match p
    case Content(c) => Content(c + ".")
    case MxContent(prio, c) => MxContent(prio, c + ".")
    case CaaData(_) => p
  }

  /** The types whose decoded values gain a trailing dot. */
  predicate GainsDot(t: RType) {
    t == CNAME || t == ALIAS || t == MX || t == NS
  }

  /**
   * Encoding what was decoded gives back the wire payloads: unchanged for
   * A, AAAA, SPF, CAA and TXT (the escape added on decode is removed on encode),
   * and with a trailing dot on CNAME, ALIAS, MX and NS content, which is the
   * same adjustment `_apply_Update` makes to live records before comparing.
   */
  lemma {:induction false} EncodeDecode(t: RType, records: seq<WireRecord>)
    requires |records| > 0
    ensures var ps := ContentsFor(WireRType(t), DataFor(t, records).values);
      if t == CNAME || t == ALIAS then
        ps == [AppendDot(WirePayload(records[0], t))]
      else
        && |ps| == |records|
        && forall i :: 0 <= i < |records| ==>
             ps[i] == if GainsDot(t) then AppendDot(WirePayload(records[i], t)) else WirePayload(records[i], t)
  {
    var ps := ContentsFor(WireRType(t), DataFor(t, records).values);
    if t == TXT {
      forall i | 0 <= i < |records|
        ensures ps[i] == WirePayload(records[i], t)
      {
        UnescapeEscape(records[i].content);
      }
    }
  }

  /** The wire types whose content is a hostname: the service keeps it without the trailing dot. */
  predicate HostnameType(rtype: string) {
    rtype == "CNAME" || rtype == "MX" || rtype == "NS"
  }

  /** The content the service keeps for a fragment's content. */
  function StoredContent(rtype: string, c: string): (r: string)
    ensures HostnameType(rtype) && EndsWithDot(c) ==> r + "." == c
    ensures !HostnameType(rtype) ==> r == c
  {
    if HostnameType(rtype) && EndsWithDot(c) then DropLast(c) else c
  }

  /** The hostname a payload carries, if any, is fully qualified. */
  predicate DottedPayload(p: Payload) {
    match p
    case Content(c) => EndsWithDot(c)
    case MxContent(_, c) => EndsWithDot(c)
    case CaaData(_) => true
  }

  /** A record whose hostnames are dotted encodes to fragments whose hostname content is dotted. */
  lemma GenContentsDotted(r: Record)
    requires WellFormed(r) && HostnamesDotted(r)
    ensures forall f :: f in GenContents(r) && HostnameType(f.rtype) ==> DottedPayload(f.payload)
  {
    var fs := GenContents(r);
    forall f | f in fs && HostnameType(f.rtype) ensures DottedPayload(f.payload) {
      var i :| 0 <= i < |fs| && fs[i] == f;
      assert f.rtype == TypeName(WireRType(r.rtype));
    }
  }

  /**
   * The record the service would list for a fragment (identifiers left
   * empty): the fragment's fields, with hostname content stored undotted.
   */
  function Stored(f: Fragment): (w: WireRecord)
    ensures w.name == f.name && w.rtype == f.rtype && w.ttl == f.ttl
  {
    match f.payload
    case Content(c) => WireRecord("", "", f.name, f.rtype, f.ttl, StoredContent(f.rtype, c), 0, CaaValue(0, "", ""))
    case CaaData(d) => WireRecord("", "", f.name, f.rtype, f.ttl, "", 0, d)
    case MxContent(p, c) => WireRecord("", "", f.name, f.rtype, f.ttl, StoredContent(f.rtype, c), p, CaaValue(0, "", ""))
  }

  function StoredAll(fs: seq<Fragment>): (ws: seq<WireRecord>)
    ensures |ws| == |fs| && forall i :: 0 <= i < |fs| ==> ws[i] == Stored(fs[i])
  {
    seq(|fs|, i requires 0 <= i < |fs| => Stored(fs[i]))
  }

  /**
   * Canonical to wire to canonical for every type but TXT: the values come
   * back unchanged (the dot the service drops from a hostname is appended
   * again on decode) and the TTL comes back clamped to the floor.
   */
  lemma CanonicalRoundTrip(r: Record)
    requires WellFormed(r) && HostnamesDotted(r) && ValueCount(r.data.values) > 0
    requires r.rtype != TXT
    ensures DataFor(r.rtype, StoredAll(GenContents(r))) == RecordData(Max(MIN_TTL, r.data.ttl), r.data.values)
  {
    var fs := GenContents(r);
    var ws := StoredAll(fs);
    var d := DataFor(r.rtype, ws);
    var v := r.data.values;
    var wt := TypeName(WireRType(r.rtype));
    assert forall i :: 0 <= i < |fs| ==> fs[i].rtype == wt;
    match r.rtype
    case CAA =>
      assert d.values.caa == v.caa;
    case CNAME | ALIAS =>
      assert wt == "CNAME" && HostnameType(wt);
      assert fs[0].payload == Content(v.value);
      assert ws[0].content == StoredContent(wt, v.value);
    case MX =>
      assert wt == "MX" && HostnameType(wt);
      forall i | 0 <= i < |v.mx| ensures d.values.mx[i] == v.mx[i] {
        assert fs[i].payload == MxContent(v.mx[i].preference, v.mx[i].exchange);
        assert ws[i].content == StoredContent(wt, v.mx[i].exchange);
      }
      assert d.values.mx == v.mx;
    case NS =>
      assert wt == "NS" && HostnameType(wt);
      forall i | 0 <= i < |v.values| ensures d.values.values[i] == v.values[i] {
        assert fs[i].payload == Content(v.values[i]);
        assert ws[i].content == StoredContent(wt, v.values[i]);
      }
      assert d.values.values == v.values;
    case A | AAAA | SPF =>
      assert !HostnameType(wt);
      forall i | 0 <= i < |v.values| ensures d.values.values[i] == v.values[i] {
        assert fs[i].payload == Content(v.values[i]);
      }
      assert d.values.values == v.values;
  }

  /**
   * Canonical to wire to canonical for TXT gives back the values exactly when
   * every semicolon in them is already escaped.
   */
  lemma TxtCanonicalRoundTrip(r: Record)
    requires WellFormed(r) && r.rtype == TXT && |r.data.values.values| > 0
    ensures var d := DataFor(TXT, StoredAll(GenContents(r)));
      d.values == r.data.values <==> forall v :: v in r.data.values.values ==> SemicolonsEscaped(v)
  {
    var vs := r.data.values.values;
    var fs := GenContents(r);
    var d := DataFor(TXT, StoredAll(fs));
    assert !HostnameType(TypeName(TXT));
    forall i | 0 <= i < |vs| ensures StoredAll(fs)[i].content == Unescape(vs[i]) {
      assert fs[i].payload == Content(Unescape(vs[i])) && fs[i].rtype == TypeName(TXT);
    }
    assert |d.values.values| == |vs|;
    assert forall i :: 0 <= i < |vs| ==> d.values.values[i] == Escape(Unescape(vs[i]));
    forall i | 0 <= i < |vs|
      ensures Escape(Unescape(vs[i])) == vs[i] <==> SemicolonsEscaped(vs[i])
    {
      EscapeUnescape(vs[i]);
    }
    if d.values == r.data.values {
      forall v | v in vs ensures SemicolonsEscaped(v) {
        var i :| 0 <= i < |vs| && vs[i] == v;
        assert d.values.values[i] == vs[i];
      }
    }
    if forall v :: v in vs ==> SemicolonsEscaped(v) {
      assert d.values.values == vs;
    }
  }
}
