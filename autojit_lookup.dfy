/**
 * `AutojitMeta.__getitem__`: find the specialized class whose attribute
 * dictionary equals a requested signature, scanning the cached classes in
 * iteration order and raising `KeyError(key)` when none matches.
 */
module AutojitLookup {
  import opened AutojitTypes
  import opened SpecializerCache

  datatype LookupResult = Found(cls: Variant) | KeyError(key: Signature)

  /** No class before position `i` has attribute dictionary `key`. */
  predicate NoMatchBefore(specs: seq<Variant>, i: int, key: Signature)
    requires 0 <= i <= |specs|
  {
    forall j :: 0 <= j < i ==> specs[j].attrs != key
  }

  /** The linear scan: first class whose attribute dictionary equals `key`. */
  function Lookup(specs: seq<Variant>, key: Signature): (r: LookupResult)
    ensures r.Found? ==> r.cls in specs && r.cls.attrs == key
    ensures r.KeyError? ==> r.key == key && NoMatchBefore(specs, |specs|, key)
  {
    if specs == [] then KeyError(key)
    else if specs[0].attrs == key then Found(specs[0])
    else Lookup(specs[1..], key)
  }

  /** Several matching classes: the scan returns the first one in iteration order. */
  lemma {:induction false} LookupReturnsFirst(specs: seq<Variant>, key: Signature, i: nat)
    requires i < |specs| && specs[i].attrs == key && NoMatchBefore(specs, i, key)
    ensures Lookup(specs, key) == Found(specs[i])
  {
    if i > 0 {
      assert specs[0].attrs != key;
      LookupReturnsFirst(specs[1..], key, i - 1);
    }
  }

  /** The converse: whatever the scan returns is the first match. */
  lemma {:induction false} FoundIsFirst(specs: seq<Variant>, key: Signature)
    requires Lookup(specs, key).Found?
    ensures exists i :: 0 <= i < |specs| && specs[i] == Lookup(specs, key).cls && NoMatchBefore(specs, i, key)
  {
    if specs[0].attrs != key {
      FoundIsFirst(specs[1..], key);
      var i :| 0 <= i < |specs[1..]| && specs[1..][i] == Lookup(specs, key).cls && NoMatchBefore(specs[1..], i, key);
      assert specs[i + 1] == Lookup(specs, key).cls;
      assert NoMatchBefore(specs, i + 1, key);
    } else {
      assert specs[0] == Lookup(specs, key).cls;
    }
  }

  /** The view contains at most one class per attribute dictionary. */
  predicate UniqueSignatures(specs: seq<Variant>) {
    forall i, j :: 0 <= i < |specs| && 0 <= j < |specs| && specs[i].attrs == specs[j].attrs ==> i == j
  }

  /** With one class per signature, lookup returns `v` exactly when `v` is cached
      with attribute dictionary `key`; on a miss it raises `KeyError(key)`. */
  lemma LookupExact(specs: seq<Variant>, key: Signature, v: Variant)
    requires UniqueSignatures(specs)
    ensures Lookup(specs, key) == Found(v) <==> v in specs && v.attrs == key
    ensures Lookup(specs, key) == KeyError(key) <==> forall w :: w in specs ==> w.attrs != key
  {
    if v in specs && v.attrs == key {
      var i :| 0 <= i < |specs| && specs[i] == v;
      LookupReturnsFirst(specs, key, i);
    }
  }

  /** With one class per signature, the iteration order of the cache does not matter. */
  lemma LookupOrderIrrelevant(s1: seq<Variant>, s2: seq<Variant>, key: Signature)
    requires UniqueSignatures(s1) && UniqueSignatures(s2)
    requires forall v :: v in s1 <==> v in s2
    ensures Lookup(s1, key) == Lookup(s2, key)
  {
    var r := Lookup(s1, key);
    if r.Found? {
      LookupExact(s2, key, r.cls);
    } else if Lookup(s2, key).Found? {
      LookupExact(s1, key, Lookup(s2, key).cls);
    }
  }

  /** Classes added after the cached ones only answer keys the cached ones missed. */
  lemma {:induction false} LookupExtend(specs: seq<Variant>, more: seq<Variant>, key: Signature)
    ensures Lookup(specs + more, key) ==
      if Lookup(specs, key).Found? then Lookup(specs, key) else Lookup(more, key)
  {
    if specs != [] {
      assert (specs + more)[1..] == specs[1..] + more;
      LookupExtend(specs[1..], more, key);
    } else {
      assert specs + more == more;
    }
  }

  /** A hit on a prefix of the iteration order is the hit on the whole. */
  lemma LookupPrefixStable(specs: seq<Variant>, specs': seq<Variant>, key: Signature)
    requires specs <= specs' && Lookup(specs, key).Found?
    ensures Lookup(specs', key) == Lookup(specs, key)
  {
    var more := specs'[|specs|..];
    assert specs' == specs + more;
    LookupExtend(specs, more, key);
  }

  /** `C[key]`: lookup over the current specializations of the generic class. */
  function GetItem(c: Cache, key: Signature): (r: LookupResult)
    requires Valid(c)
    ensures r.Found? ==> r.cls in c.entries.Values && r.cls.attrs == key
    ensures r.KeyError? <==> forall v :: v in c.entries.Values ==> v.attrs != key
    ensures r.KeyError? ==> r.key == key
  {
    var r := Lookup(Specializations(c), key);
    if r.Found? then
      SpecializationsAreValues(c, r.cls);
      r
    else
      assert forall v :: v in c.entries.Values ==> v.attrs != key by {
        forall v | v in c.entries.Values ensures v.attrs != key {
          SpecializationsAreValues(c, v);
        }
      }
      r
  }
}
