/**
 * `ACMEChallengeCNAMESource`: for every A, AAAA and CNAME record of a zone
 * whose name has no wildcard, add a CNAME `_acme-challenge[.<name>]` that
 * points into a separate target zone, so ACME DNS-01 challenges can be
 * answered there.
 */
module AcmeChallengeCnames {
  import opened Text
  import opened DnsRecord

  const DEFAULT_TTL := 3600

  const PREFIX := "_acme-challenge"

  /** The target zone as the constructor stores it: a dot is appended when missing. */
  function EnsureDot(z: string): (r: string)
    ensures EndsWithDot(r)
    ensures |r| >= |z| && r[..|z|] == z
    ensures |r| <= |z| + 1
  {
    if EndsWithDot(z) then z else z + "."
  }

  /** Normalising twice changes nothing, and an already dotted name is kept as is. */
  lemma EnsureDotIdempotent(z: string)
    ensures EnsureDot(EnsureDot(z)) == EnsureDot(z)
    ensures EndsWithDot(z) ==> EnsureDot(z) == z
  {
  }

  /** The records the source answers for: no `*` in the name, type A, AAAA or CNAME. */
  predicate Eligible(k: Key) {
    '*' !in k.name && k.rtype in {A, AAAA, CNAME}
  }

  /** The owner name of the challenge record for a record named `name`. */
  function ChallengeName(name: string): (r: string)
    ensures |r| >= |PREFIX| && r[..|PREFIX|] == PREFIX
    ensures name == "" <==> r == PREFIX
  {
    if name == "" then PREFIX else PREFIX + "." + name
  }

  /** Reads back the record name a challenge name was made for. */
  function ChallengeOwner(c: string): (r: string)
    ensures |r| <= |c|
  {
    if |c| > |PREFIX| + 1 then c[|PREFIX| + 1..] else ""
  }

  /** `ChallengeOwner` undoes `ChallengeName`. */
  lemma ChallengeNameInverse(name: string)
    ensures ChallengeOwner(ChallengeName(name)) == name
  {
    if name != "" {
      assert ChallengeName(name)[|PREFIX| + 1..] == name;
    }
  }

  /** Distinct record names get distinct challenge names. */
  lemma ChallengeNameInjective(a: string, b: string)
    ensures ChallengeName(a) == ChallengeName(b) <==> a == b
  {
    ChallengeNameInverse(a);
    ChallengeNameInverse(b);
  }

  /** The challenge record's target: `_acme-challenge.<fqdn><target zone>`. */
  function ChallengeTarget(zoneName: string, name: string, targetZone: string): (r: string)
    ensures |r| > |PREFIX| && r[..|PREFIX| + 1] == PREFIX + "."
    ensures EndsWithDot(targetZone) ==> EndsWithDot(r)
  {
    PREFIX + "." + Fqdn(zoneName, name) + targetZone
  }

  /**
   * Different records of a zone get different targets, so no two challenge
   * records point at the same name in the target zone.
   */
  lemma ChallengeTargetInjective(zoneName: string, a: string, b: string, targetZone: string)
    ensures ChallengeTarget(zoneName, a, targetZone) == ChallengeTarget(zoneName, b, targetZone) <==> a == b
  {
    var fa, fb := Fqdn(zoneName, a), Fqdn(zoneName, b);
    FqdnInjective(zoneName, a, b);
    if ChallengeTarget(zoneName, a, targetZone) == ChallengeTarget(zoneName, b, targetZone) {
      var ta, tb := PREFIX + "." + fa + targetZone, PREFIX + "." + fb + targetZone;
      assert |fa| == |fb|;
      assert fa == ta[|PREFIX| + 1..|PREFIX| + 1 + |fa|];
      assert fb == tb[|PREFIX| + 1..|PREFIX| + 1 + |fb|];
    }
  }

  function ChallengeKey(k: Key): Key {
    Key(ChallengeName(k.name), CNAME)
  }

  function ChallengeData(zoneName: string, name: string, targetZone: string, ttl: int): RecordData {
    RecordData(ttl, Single(ChallengeTarget(zoneName, name, targetZone)))
  }

  /** The challenge records' keys for the records `keys`: root A and root AAAA share one. */
  function ChallengeKeys(keys: set<Key>): set<Key>
  {
    set k | k in keys :: ChallengeKey(k)
  }

  /**
   * The challenge records made for the records `keys`, each keyed by its
   * owner name and holding the target built for the record it was made for.
   */
  function ChallengesFor(zoneName: string, keys: set<Key>, targetZone: string, ttl: int): map<Key, RecordData>
  {
    map c | c in ChallengeKeys(keys) :: ChallengeData(zoneName, ChallengeOwner(c.name), targetZone, ttl)
  }

  /** The eligible records of a zone snapshot. */
  function EligibleKeys(records: map<Key, RecordData>): set<Key>
  {
    set k | k in records && Eligible(k)
  }

  /** Everything `populate` adds: the challenge records of the records present before it ran. */
  function Generated(zoneName: string, records: map<Key, RecordData>, targetZone: string, ttl: int): map<Key, RecordData>
  {
    ChallengesFor(zoneName, EligibleKeys(records), targetZone, ttl)
  }

  /**
   * A challenge record exists exactly for the owner names of eligible
   * records; every one is a well-typed CNAME with the source's TTL whose
   * target is built from the record's fully qualified name.
   */
  lemma {:induction false} GeneratedSpec(zoneName: string, records: map<Key, RecordData>, targetZone: string, ttl: int)
    ensures forall c :: c in Generated(zoneName, records, targetZone, ttl) <==>
      exists k :: k in records && Eligible(k) && c == ChallengeKey(k)
    ensures forall k :: k in records && Eligible(k) ==>
      var g := Generated(zoneName, records, targetZone, ttl);
      && ChallengeKey(k) in g
      && g[ChallengeKey(k)] == RecordData(ttl, Single("_acme-challenge." + RecordFqdn(Record(zoneName, k.name, k.rtype, records[k])) + targetZone))
    ensures forall c :: c in Generated(zoneName, records, targetZone, ttl) ==>
      var d := Generated(zoneName, records, targetZone, ttl)[c];
      c.rtype == CNAME && d.ttl == ttl && WellTyped(c.rtype, d.values)
  {
    var g := Generated(zoneName, records, targetZone, ttl);
    forall k | k in records && Eligible(k)
      ensures ChallengeKey(k) in g
      ensures g[ChallengeKey(k)] == RecordData(ttl, Single("_acme-challenge." + RecordFqdn(Record(zoneName, k.name, k.rtype, records[k])) + targetZone))
    {
      assert k in EligibleKeys(records);
      ChallengeNameInverse(k.name);
      assert PREFIX + "." == "_acme-challenge.";
    }
  }

  /** Only the challenge names are touched: a record whose name is not one keeps its data. */
  lemma GeneratedOnlyChallengeNames(zoneName: string, records: map<Key, RecordData>, targetZone: string, ttl: int, k: Key)
    requires k in records
    requires |k.name| < |PREFIX| || k.name[..|PREFIX|] != PREFIX
    ensures (records + Generated(zoneName, records, targetZone, ttl))[k] == records[k]
  {
  }

  /** Adding one more record's challenge to the map of those already added. */
  lemma ChallengesForInsert(zoneName: string, keys: set<Key>, k: Key, targetZone: string, ttl: int)
    ensures ChallengesFor(zoneName, keys + {k}, targetZone, ttl)
      == ChallengesFor(zoneName, keys, targetZone, ttl)[ChallengeKey(k) := ChallengeData(zoneName, k.name, targetZone, ttl)]
  {
    ChallengeNameInverse(k.name);
    assert ChallengeKeys(keys + {k}) == ChallengeKeys(keys) + {ChallengeKey(k)};
  }

  /**
   * A challenge record is itself eligible and would get a challenge record
   * of its own: collecting the eligible records before inserting is what
   * keeps one `populate` from chaining `_acme-challenge._acme-challenge...`.
   */
  lemma ChallengeEligible(k: Key)
    requires Eligible(k)
    ensures Eligible(ChallengeKey(k))
    ensures ChallengeKey(ChallengeKey(k)) != ChallengeKey(k)
  {
    assert '*' !in PREFIX + ".";
    assert ChallengeName(k.name) == PREFIX || ChallengeName(k.name) == (PREFIX + ".") + k.name;
    assert |ChallengeName(ChallengeName(k.name))| > |ChallengeName(k.name)|;
  }

  /** The zone of the source's unit test: two root addresses, an AAAA, a CNAME, a TXT and an NS. */
  function SampleRecords(): map<Key, RecordData> {
    map[
      Key("", A) := RecordData(60, Multi(["1.2.3.4"])),
      Key("", AAAA) := RecordData(60, Multi(["2001:4860:4860::8888"])),
      Key("quadA", AAAA) := RecordData(60, Multi(["2001:4860:4860::8844"])),
      Key("www", CNAME) := RecordData(60, Single("www.test.")),
      Key("text", TXT) := RecordData(60, Multi(["foobar"])),
      Key("subdomain", NS) := RecordData(60, Multi(["ns.test."]))
    ]
  }

  lemma SampleEligible()
    ensures EligibleKeys(SampleRecords()) == {Key("", A), Key("", AAAA), Key("quadA", AAAA), Key("www", CNAME)}
  {
    var rs := SampleRecords();
    assert '*' !in "quadA" && '*' !in "www";
    assert '*' in "*" ;
    forall k | k in EligibleKeys(rs)
      ensures k in {Key("", A), Key("", AAAA), Key("quadA", AAAA), Key("www", CNAME)}
    {
    }
  }

  lemma SampleChallengeKeys()
    ensures ChallengeKeys({Key("", A), Key("", AAAA), Key("quadA", AAAA), Key("www", CNAME)})
      == {Key("_acme-challenge", CNAME), Key("_acme-challenge.quadA", CNAME), Key("_acme-challenge.www", CNAME)}
  {
    assert ChallengeKey(Key("", A)) == Key("_acme-challenge", CNAME);
    assert ChallengeKey(Key("", AAAA)) == Key("_acme-challenge", CNAME);
    assert ChallengeKey(Key("quadA", AAAA)) == Key("_acme-challenge.quadA", CNAME);
    assert ChallengeKey(Key("www", CNAME)) == Key("_acme-challenge.www", CNAME);
  }

  /**
   * Over that zone the source adds exactly three names: the two root records
   * share `_acme-challenge`, and the TXT and NS records get nothing.
   */
  lemma SampleGeneratedKeys()
    ensures Generated("unit.tests.", SampleRecords(), "targetzone.test.", 60).Keys
      == {Key("_acme-challenge", CNAME), Key("_acme-challenge.quadA", CNAME), Key("_acme-challenge.www", CNAME)}
  {
    SampleEligible();
    SampleChallengeKeys();
  }

  /** The `www` challenge record points at the record's name under the target zone. */
  lemma SampleWwwTarget()
    ensures var g := Generated("unit.tests.", SampleRecords(), "targetzone.test.", 60);
      && Key("_acme-challenge.www", CNAME) in g
      && g[Key("_acme-challenge.www", CNAME)] == RecordData(60, Single("_acme-challenge." + "www.unit.tests." + "targetzone.test."))
  {
    SampleGeneratedKeys();
    ChallengeNameInverse("www");
    assert ChallengeName("www") == "_acme-challenge.www";
    SampleFqdn();
    assert PREFIX + "." == "_acme-challenge.";
    var g := Generated("unit.tests.", SampleRecords(), "targetzone.test.", 60);
    assert g[Key("_acme-challenge.www", CNAME)] == ChallengeData("unit.tests.", "www", "targetzone.test.", 60);
  }

  lemma SampleFqdn()
    ensures Fqdn("unit.tests.", "www") == "www.unit.tests."
  {
    assert "www" + "." == "www.";
  }

  /** The six records of the zone are all kept next to the three new ones. */
  lemma SampleZone()
    ensures var rs := SampleRecords();
      (rs + Generated("unit.tests.", rs, "targetzone.test.", 60)).Keys
      == {Key("", A), Key("", AAAA), Key("quadA", AAAA), Key("www", CNAME), Key("text", TXT), Key("subdomain", NS),
          Key("_acme-challenge", CNAME), Key("_acme-challenge.quadA", CNAME), Key("_acme-challenge.www", CNAME)}
  {
    SampleGeneratedKeys();
  }

  /** Inserting after a union is inserting into its right operand. */
  lemma UnionUpdate<K, V>(m: map<K, V>, n: map<K, V>, k: K, v: V)
    ensures (m + n)[k := v] == m + n[k := v]
  {
  }

  /** A source instance: the normalised target zone and the TTL of the records it makes. */
  class Source {
    const targetZone: string
    const ttl: int

    /** `__init__`: the target zone gains a trailing dot when it lacks one. */
    constructor (targetZone: string, ttl: int := DEFAULT_TTL)
      ensures this.targetZone == EnsureDot(targetZone) && this.ttl == ttl
    {
      var z := targetZone;
      if !EndsWithDot(z) {
        z := z + ".";
      }
      this.targetZone := z;
      this.ttl := ttl;
    }

    /**
     * `populate`: collect the eligible records first, then add one challenge
     * CNAME per eligible record, replacing any record of that name and type.
     */
    method Populate(zone: Zone)
      modifies zone
      ensures zone.records == old(zone.records) + Generated(zone.name, old(zone.records), targetZone, ttl)
    {
      var eligible := EligibleKeys(zone.records);
      var todo := eligible;
      ghost var done: set<Key> := {};
      while todo != {}
        invariant todo + done == eligible
        invariant zone.records == old(zone.records) + ChallengesFor(zone.name, done, targetZone, ttl)
        decreases todo
      {
        var k :| k in todo;
        var data := RecordData(ttl, Single(ChallengeTarget(zone.name, k.name, targetZone)));
        ChallengesForInsert(zone.name, done, k, targetZone, ttl);
        UnionUpdate(old(zone.records), ChallengesFor(zone.name, done, targetZone, ttl), ChallengeKey(k), data);
        zone.AddRecord(Key(ChallengeName(k.name), CNAME), data);
        todo := todo - {k};
        done := done + {k};
      }
    }
  }
}
