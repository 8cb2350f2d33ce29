/**
 * What `populate` adds to a zone: the listed records of a supported type are
 * grouped by owner name (relative to the zone) and listed type, each group
 * is decoded by `_data_for_<type>`, and a CNAME group at the zone root is
 * taken as an ALIAS. Groups are visited in order of first appearance in the
 * listing.
 */
module CloudflarePopulate {
  import opened Wrappers
  import opened DnsRecord
  import opened CloudflareWire

  /** The key of `values[name][type]`: owner name and listed type. */
  type Group = (string, RType)

  /** The group a listed record falls into, or None when its type is not supported. */
  function GroupOf(w: WireRecord, hostname: string -> string): (g: Option<Group>)
    ensures g.Some? <==> ParseType(w.rtype).Some?
    ensures g.Some? ==> g.value.0 == hostname(w.name) && TypeName(g.value.1) == w.rtype
  {
    match ParseType(w.rtype)
    case None => None
    case Some(t) => Some((hostname(w.name), t))
  }

  /** `values[name][type]`: the listed records of one group, in listing order. */
  function Members(records: seq<WireRecord>, hostname: string -> string, g: Group): seq<WireRecord>
  {
    if records == [] then []
    else
      var w := records[|records| - 1];
      Members(records[..|records| - 1], hostname, g) + (if GroupOf(w, hostname) == Some(g) then [w] else [])
  }

  /** A group's members are exactly the listed records that fall into it. */
  lemma {:induction false} MembersSpec(records: seq<WireRecord>, hostname: string -> string, g: Group)
    ensures forall w :: w in Members(records, hostname, g) <==> w in records && GroupOf(w, hostname) == Some(g)
  {
    if records != [] {
      var init := records[..|records| - 1];
      assert records == init + [records[|records| - 1]];
      MembersSpec(init, hostname, g);
    }
  }

  /** The groups, each once, in order of first appearance. */
  function GroupOrder(records: seq<WireRecord>, hostname: string -> string): (gs: seq<Group>)
    ensures forall i, j :: 0 <= i < j < |gs| ==> gs[i] != gs[j]
  {
    if records == [] then []
    else
      var gs := GroupOrder(records[..|records| - 1], hostname);
      var g := GroupOf(records[|records| - 1], hostname);
      if g.Some? && g.value !in gs then gs + [g.value] else gs
  }

  /** The groups are exactly those of the supported listed records. */
  lemma {:induction false} GroupOrderSpec(records: seq<WireRecord>, hostname: string -> string)
    ensures forall g :: g in GroupOrder(records, hostname) <==> exists w :: w in records && GroupOf(w, hostname) == Some(g)
  {
    if records != [] {
      var init := records[..|records| - 1];
      var last := records[|records| - 1];
      assert records == init + [last];
      GroupOrderSpec(init, hostname);
      forall g ensures g in GroupOrder(records, hostname) <==> exists w :: w in records && GroupOf(w, hostname) == Some(g) {
        if exists w :: w in records && GroupOf(w, hostname) == Some(g) {
          var w :| w in records && GroupOf(w, hostname) == Some(g);
          if w != last {
            assert w in init;
          }
        }
      }
    }
  }

  /** Every group that appears has at least one member. */
  lemma MembersNonEmpty(records: seq<WireRecord>, hostname: string -> string, g: Group)
    requires g in GroupOrder(records, hostname)
    ensures |Members(records, hostname, g)| > 0
  {
    GroupOrderSpec(records, hostname);
    MembersSpec(records, hostname, g);
    var w :| w in records && GroupOf(w, hostname) == Some(g);
    assert w in Members(records, hostname, g);
  }

  /** The record key a group is added under: a root CNAME becomes an ALIAS. */
  function KeyOf(g: Group): Key {
    Key(g.0, if g.1 == CNAME && g.0 == "" then ALIAS else g.1)
  }

  /** The records `populate` adds, in order: one per group, decoded from its members. */
  function Populated(records: seq<WireRecord>, hostname: string -> string): (kvs: seq<(Key, RecordData)>)
    ensures |kvs| == |GroupOrder(records, hostname)|
    ensures forall i :: 0 <= i < |kvs| ==>
      var g := GroupOrder(records, hostname)[i];
      && kvs[i].0 == KeyOf(g)
      && WellTyped(kvs[i].0.rtype, kvs[i].1.values)
  {
    var gs := GroupOrder(records, hostname);
    seq(|gs|, i requires 0 <= i < |gs| =>
      MembersNonEmpty(records, hostname, gs[i]);
      (KeyOf(gs[i]), DataFor(KeyOf(gs[i]).rtype, Members(records, hostname, gs[i]))))
  }

  /** Successive `add_record` calls: each pair is inserted, a later one replacing an earlier one. */
  function AddAll<K, V>(m: map<K, V>, kvs: seq<(K, V)>): (r: map<K, V>)
    ensures m.Keys <= r.Keys
  {
    if kvs == [] then m
    else AddAll(m, kvs[..|kvs| - 1])[kvs[|kvs| - 1].0 := kvs[|kvs| - 1].1]
  }

  /**
   * After the inserts the keys are the old ones plus the inserted ones; a key
   * not inserted keeps its value; and when no key is inserted twice every
   * inserted key holds its inserted value.
   */
  lemma {:induction false} AddAllSpec<K, V>(m: map<K, V>, kvs: seq<(K, V)>)
    ensures forall k :: k in AddAll(m, kvs) <==> k in m || exists i :: 0 <= i < |kvs| && kvs[i].0 == k
    ensures forall k :: k in m && (forall i :: 0 <= i < |kvs| ==> kvs[i].0 != k) ==> AddAll(m, kvs)[k] == m[k]
    ensures (forall i, j :: 0 <= i < j < |kvs| ==> kvs[i].0 != kvs[j].0) ==>
      forall i :: 0 <= i < |kvs| ==> AddAll(m, kvs)[kvs[i].0] == kvs[i].1
  {
    if kvs != [] {
      var init := kvs[..|kvs| - 1];
      AddAllSpec(m, init);
      forall k ensures k in AddAll(m, kvs) <==> k in m || exists i :: 0 <= i < |kvs| && kvs[i].0 == k {
        if k in AddAll(m, init) && k !in m {
          var i :| 0 <= i < |init| && init[i].0 == k;
          assert kvs[i].0 == k;
        }
        if exists i :: 0 <= i < |kvs| && kvs[i].0 == k {
          var i :| 0 <= i < |kvs| && kvs[i].0 == k;
          if i < |init| {
            assert init[i].0 == k;
          }
        }
      }
      forall k | k in m && (forall i :: 0 <= i < |kvs| ==> kvs[i].0 != k)
        ensures AddAll(m, kvs)[k] == m[k]
      {
        assert forall i :: 0 <= i < |init| ==> init[i] == kvs[i];
      }
      if forall i, j :: 0 <= i < j < |kvs| ==> kvs[i].0 != kvs[j].0 {
        forall i | 0 <= i < |kvs| ensures AddAll(m, kvs)[kvs[i].0] == kvs[i].1 {
          if i < |init| {
            assert init[i] == kvs[i];
          }
        }
      }
    }
  }

  /**
   * Two different groups get different record keys unless one is a root
   * CNAME and the other a root ALIAS listing.
   */
  lemma KeyOfInjective(g1: Group, g2: Group)
    requires g1 != g2 && KeyOf(g1) == KeyOf(g2)
    ensures g1.0 == "" && g2.0 == "" && {g1.1, g2.1} == {CNAME, ALIAS}
  {
  }

  /** Some supported listed record is added under key `k`. */
  predicate KeyListed(records: seq<WireRecord>, hostname: string -> string, k: Key) {
    exists w :: w in records && GroupOf(w, hostname).Some? && KeyOf(GroupOf(w, hostname).value) == k
  }

  /** Without ALIAS listings no two groups are added under the same key. */
  lemma PopulatedKeysDistinct(records: seq<WireRecord>, hostname: string -> string)
    requires forall w :: w in records ==> w.rtype != "ALIAS"
    ensures var kvs := Populated(records, hostname);
      forall i, j :: 0 <= i < j < |kvs| ==> kvs[i].0 != kvs[j].0
  {
    var gs := GroupOrder(records, hostname);
    var kvs := Populated(records, hostname);
    GroupOrderSpec(records, hostname);
    forall i | 0 <= i < |gs| ensures gs[i].1 != ALIAS {
      assert gs[i] in gs;
      var w :| w in records && GroupOf(w, hostname) == Some(gs[i]);
    }
    forall i, j | 0 <= i < j < |kvs| ensures kvs[i].0 != kvs[j].0 {
      if kvs[i].0 == kvs[j].0 {
        KeyOfInjective(gs[i], gs[j]);
      }
    }
  }

  /** The keys added are exactly the keys of the supported listed records. */
  lemma PopulatedKeys(records: seq<WireRecord>, hostname: string -> string, k: Key)
    ensures KeyListed(records, hostname, k) <==>
      exists i :: 0 <= i < |Populated(records, hostname)| && Populated(records, hostname)[i].0 == k
  {
    var gs := GroupOrder(records, hostname);
    var kvs := Populated(records, hostname);
    GroupOrderSpec(records, hostname);
    if KeyListed(records, hostname, k) {
      var w :| w in records && GroupOf(w, hostname).Some? && KeyOf(GroupOf(w, hostname).value) == k;
      var g := GroupOf(w, hostname).value;
      assert g in gs;
      var i :| 0 <= i < |gs| && gs[i] == g;
      assert kvs[i].0 == KeyOf(gs[i]);
    }
    if exists i :: 0 <= i < |kvs| && kvs[i].0 == k {
      var i :| 0 <= i < |kvs| && kvs[i].0 == k;
      assert gs[i] in gs;
      var w :| w in records && GroupOf(w, hostname) == Some(gs[i]);
      assert KeyOf(GroupOf(w, hostname).value) == k;
    }
  }

  /** The entry added for the i-th group. */
  lemma PopulatedAt(records: seq<WireRecord>, hostname: string -> string, i: nat)
    requires i < |GroupOrder(records, hostname)|
    ensures var g := GroupOrder(records, hostname)[i];
      && |Members(records, hostname, g)| > 0
      && Populated(records, hostname)[i] == (KeyOf(g), DataFor(KeyOf(g).rtype, Members(records, hostname, g)))
  {
    MembersNonEmpty(records, hostname, GroupOrder(records, hostname)[i]);
  }

  /** `populate` adds a key exactly when some supported listed record maps to it. */
  lemma PopulatedZoneKeys(m: map<Key, RecordData>, records: seq<WireRecord>, hostname: string -> string)
    ensures forall k :: k in AddAll(m, Populated(records, hostname)) <==> k in m || KeyListed(records, hostname, k)
  {
    AddAllSpec(m, Populated(records, hostname));
    forall k ensures k in AddAll(m, Populated(records, hostname)) <==> k in m || KeyListed(records, hostname, k) {
      PopulatedKeys(records, hostname, k);
    }
  }

  /** A key that no listed record maps to keeps its value. */
  lemma PopulatedZoneKept(m: map<Key, RecordData>, records: seq<WireRecord>, hostname: string -> string)
    ensures forall k :: k in m && !KeyListed(records, hostname, k) ==> AddAll(m, Populated(records, hostname))[k] == m[k]
  {
    AddAllSpec(m, Populated(records, hostname));
    forall k | k in m && !KeyListed(records, hostname, k) ensures AddAll(m, Populated(records, hostname))[k] == m[k] {
      PopulatedKeys(records, hostname, k);
    }
  }

  /** Without ALIAS listings the i-th group's key ends up holding that group's entry. */
  lemma PopulatedGroupData(m: map<Key, RecordData>, records: seq<WireRecord>, hostname: string -> string, i: nat)
    requires forall w :: w in records ==> w.rtype != "ALIAS"
    requires i < |GroupOrder(records, hostname)|
    ensures var g := GroupOrder(records, hostname)[i];
      var ms := Members(records, hostname, g);
      var z := AddAll(m, Populated(records, hostname));
      |ms| > 0 && KeyOf(g) in z && z[KeyOf(g)] == DataFor(KeyOf(g).rtype, ms)
  {
    var kvs := Populated(records, hostname);
    AddAllSpec(m, kvs);
    PopulatedKeysDistinct(records, hostname);
    PopulatedAt(records, hostname, i);
  }

  /**
   * Without ALIAS listings (the service has no ALIAS type; root CNAMEs stand
   * for it), each supported listed record's key holds its whole group, decoded.
   */
  lemma PopulatedZoneData(m: map<Key, RecordData>, records: seq<WireRecord>, hostname: string -> string)
    requires forall w :: w in records ==> w.rtype != "ALIAS"
    ensures forall w :: w in records && GroupOf(w, hostname).Some? ==>
      var g := GroupOf(w, hostname).value;
      var ms := Members(records, hostname, g);
      var z := AddAll(m, Populated(records, hostname));
      |ms| > 0 && KeyOf(g) in z && z[KeyOf(g)] == DataFor(KeyOf(g).rtype, ms)
  {
    var gs := GroupOrder(records, hostname);
    GroupOrderSpec(records, hostname);
    forall w | w in records && GroupOf(w, hostname).Some?
      ensures var g := GroupOf(w, hostname).value;
        var ms := Members(records, hostname, g);
        var z := AddAll(m, Populated(records, hostname));
        |ms| > 0 && KeyOf(g) in z && z[KeyOf(g)] == DataFor(KeyOf(g).rtype, ms)
    {
      var g := GroupOf(w, hostname).value;
      assert g in gs;
      var i :| 0 <= i < |gs| && gs[i] == g;
      PopulatedGroupData(m, records, hostname, i);
    }
  }
}
