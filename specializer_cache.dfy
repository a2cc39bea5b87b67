/**
 * The specializer's cache of compiled classes (`funccache.specializations`), a
 * dictionary from argument types to specialized classes whose iteration order
 * is arbitrary (given here as a sequence of keys), and
 * the read-only view `AutojitMeta.specializations` over its values.
 */
module SpecializerCache {
  import opened AutojitTypes

  /** The cache key: the types of the constructor arguments. */
  type ArgTypes = seq<AttrType>

  /** A dictionary: `order` is its iteration order, `entries` its contents. */
  datatype Cache = Cache(order: seq<ArgTypes>, entries: map<ArgTypes, Variant>)

  /** What every dictionary satisfies: each key listed once, and exactly the keys listed. */
  ghost predicate Valid(c: Cache) {
    && (forall i, j :: 0 <= i < j < |c.order| ==> c.order[i] != c.order[j])
    && (forall k :: k in c.order <==> k in c.entries)
  }

  function EmptyCache(): (c: Cache)
    ensures Valid(c) && Specializations(c) == []
  {
    Cache([], map[])
  }

  /** `specializations.values()`: the cached classes, in the dictionary's iteration order. */
  function Specializations(c: Cache): (vs: seq<Variant>)
    requires forall k :: k in c.order ==> k in c.entries
    ensures |vs| == |c.order|
    ensures forall i :: 0 <= i < |vs| ==> c.order[i] in c.entries && vs[i] == c.entries[c.order[i]]
  {
    seq(|c.order|, i requires 0 <= i < |c.order| => c.entries[c.order[i]])
  }

  /** The view holds exactly the dictionary's values: nothing missing, nothing added. */
  lemma SpecializationsAreValues(c: Cache, v: Variant)
    requires Valid(c)
    ensures v in Specializations(c) <==> v in c.entries.Values
  {
    var vs := Specializations(c);
    if v in vs {
      var i :| 0 <= i < |vs| && vs[i] == v;
      assert c.entries[c.order[i]] == v;
    }
    if v in c.entries.Values {
      var k :| k in c.entries && c.entries[k] == v;
      var i :| 0 <= i < |c.order| && c.order[i] == k;
      assert vs[i] == v;
    }
  }

  /** `d[k] = v` on the dictionary (a new key is placed last; any place would do). */
  function Insert(c: Cache, k: ArgTypes, v: Variant): (c': Cache)
    ensures Valid(c) ==> Valid(c')
    ensures c'.entries == c.entries[k := v]
  {
    if k in c.entries then Cache(c.order, c.entries[k := v]) else Cache(c.order + [k], c.entries[k := v])
  }
}
