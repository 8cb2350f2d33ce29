/**
 * The parts of octodns's record and zone objects that the Cloudflare provider
 * and the ACME challenge source read or change. octodns/record.py and
 * octodns/zone.py are not part of this model: `Record.new` validation is
 * represented by the `WellTyped` predicate, `Record.fqdn` by `Fqdn`, and
 * `Zone.add_record` by a keyed insert into the zone's record map.
 */
module DnsRecord {
  import opened Wrappers
  import opened Text

  /** The closed set of record types the provider supports (`SUPPORTS`). */
  datatype RType = A | AAAA | ALIAS | CAA | CNAME | MX | NS | SPF | TXT

  function TypeName(t: RType): string {
    match t
    case A => "A"
    case AAAA => "AAAA"
    case ALIAS => "ALIAS"
    case CAA => "CAA"
    case CNAME => "CNAME"
    case MX => "MX"
    case NS => "NS"
    case SPF => "SPF"
    case TXT => "TXT"
  }

  /** Membership of a wire type name in `SUPPORTS`, returning the type it names. */
  function ParseType(s: string): (r: Option<RType>)
    ensures r.Some? ==> TypeName(r.value) == s
    ensures r.None? ==> forall t: RType :: TypeName(t) != s
  {
    if s == "A" then Some(A)
    else if s == "AAAA" then Some(AAAA)
    else if s == "ALIAS" then Some(ALIAS)
    else if s == "CAA" then Some(CAA)
    else if s == "CNAME" then Some(CNAME)
    else if s == "MX" then Some(MX)
    else if s == "NS" then Some(NS)
    else if s == "SPF" then Some(SPF)
    else if s == "TXT" then Some(TXT)
    else None
  }

  lemma ParseTypeName(t: RType)
    ensures ParseType(TypeName(t)) == Some(t)
  {
  }

  datatype CaaValue = CaaValue(flags: int, tag: string, value: string)
  datatype MxValue = MxValue(preference: int, exchange: string)

  /** `values` for multi-value types, `value` for CNAME and ALIAS. */
  datatype Values =
    | Multi(values: seq<string>)
    | Single(value: string)
    | MxValues(mx: seq<MxValue>)
    | CaaValues(caa: seq<CaaValue>)

  /** The shape of value each type carries once `Record.new` has accepted it. */
  predicate WellTyped(t: RType, v: Values) {
    match t
    case A | AAAA | NS | SPF | TXT => v.Multi?
    case CNAME | ALIAS => v.Single?
    case MX => v.MxValues?
    case CAA => v.CaaValues?
  }

  /** Number of values a record holds: one for a single-value type. */
  function ValueCount(v: Values): nat {
    match v
    case Multi(vs) => |vs|
    case Single(_) => 1
    case MxValues(mx) => |mx|
    case CaaValues(caa) => |caa|
  }

  /** A record's `data`: its TTL and its value(s). */
  datatype RecordData = RecordData(ttl: int, values: Values)

  datatype Record = Record(zoneName: string, name: string, rtype: RType, data: RecordData)

  predicate WellFormed(r: Record) {
    WellTyped(r.rtype, r.data.values)
  }

  /**
   * `Record.new`'s check that hostname values are fully qualified: the value
   * of a CNAME or ALIAS, every NS value and every MX exchange ends with a dot.
   */
  predicate HostnamesDotted(r: Record) {
    match r.rtype
    case CNAME | ALIAS => r.data.values.Single? ==> EndsWithDot(r.data.values.value)
    case NS => r.data.values.Multi? ==> forall i :: 0 <= i < |r.data.values.values| ==> EndsWithDot(r.data.values.values[i])
    case MX => r.data.values.MxValues? ==> forall i :: 0 <= i < |r.data.values.mx| ==> EndsWithDot(r.data.values.mx[i].exchange)
    case _ => true
  }

  /** `Record.fqdn`: the zone name itself for the root, `name.zone` otherwise. */
  function Fqdn(zoneName: string, name: string): string {
    if name == "" then zoneName else name + "." + zoneName
  }

  /** Different names in one zone have different fully qualified names. */
  lemma FqdnInjective(zoneName: string, a: string, b: string)
    ensures Fqdn(zoneName, a) == Fqdn(zoneName, b) <==> a == b
  {
    if Fqdn(zoneName, a) == Fqdn(zoneName, b) && a != "" && b != "" {
      assert |a| == |b|;
      assert a == (a + "." + zoneName)[..|a|];
      assert b == (b + "." + zoneName)[..|b|];
    }
  }

  function RecordFqdn(r: Record): string {
    Fqdn(r.zoneName, r.name)
  }

  /** Records in a zone are identified by name and type. */
  datatype Key = Key(name: string, rtype: RType)

  /** An in-memory zone snapshot: `Zone.records` keyed by (name, type). */
  class Zone {
    const name: string
    var records: map<Key, RecordData>

    constructor (name: string)
      ensures this.name == name && records == map[]
    {
      this.name := name;
      records := map[];
    }

    /** `add_record`: insert, replacing any record with the same name and type. */
    method AddRecord(key: Key, data: RecordData)
      modifies this
      ensures records == old(records)[key := data]
    {
      records := records[key := data];
    }
  }
}
