/** tile/base/lru_cache.h:19-75: a map with a bound on its size and a list of its keys by recency. */
module LruCaches {
  import opened Wrappers

  predicate Distinct<K(==,!new)>(s: seq<K>) {
    forall i, j :: 0 <= i < j < |s| ==> s[i] != s[j]
  }

  function Without<K(==,!new)>(s: seq<K>, k: K): (r: seq<K>)
    ensures forall x :: x in r <==> x in s && x != k
    ensures Distinct(s) ==> Distinct(r)
    ensures k !in s ==> r == s
    ensures Distinct(s) && k in s ==> |r| == |s| - 1
  {
    if s == [] then []
    else
      assert forall x :: x in s <==> x == s[0] || x in s[1..];
      assert Distinct(s) ==> s[0] !in s[1..];
      if s[0] == k then Without(s[1..], k) else [s[0]] + Without(s[1..], k)
  }

  // The other keys keep their order.
  lemma {:induction false} WithoutCuts<K(!new)>(s: seq<K>, k: K, i: nat)
    requires Distinct(s) && i < |s| && s[i] == k
    ensures Without(s, k) == s[..i] + s[i + 1..]
  {
    if i == 0 {
      assert Without(s[1..], k) == s[1..];
    } else {
      WithoutCuts(s[1..], k, i - 1);
      assert [s[0]] + (s[1..][..i - 1] + s[1..][i..]) == s[..i] + s[i + 1..];
    }
  }

  lemma {:induction false} KeysCount<K(!new)>(s: seq<K>, keys: set<K>)
    requires Distinct(s) && forall x :: x in s <==> x in keys
    ensures |keys| == |s|
  {
    if s == [] {
      assert keys == {};
    } else {
      assert forall x :: x in s[1..] <==> x in keys - {s[0]};
      KeysCount(s[1..], keys - {s[0]});
    }
  }

  // The entries are the new one and those of the list, which are as they were.
  ghost predicate Holds<K(!new), V>(entries: map<K, V>, lru: seq<K>, key: K, value: V, before: map<K, V>) {
    && Distinct(lru) && key !in lru
    && (forall k :: k in entries <==> k == key || k in lru)
    && entries[key] == value
    && (forall k :: k in lru ==> k in before && entries[k] == before[k])
  }

  lemma HoldsCount<K(!new), V>(entries: map<K, V>, lru: seq<K>, key: K, value: V, before: map<K, V>)
    requires Holds(entries, lru, key, value, before)
    ensures |entries| == |lru| + 1
  {
    KeysCount([key] + lru, entries.Keys);
  }

  class LruCache<K(==,!new), V> {
    const sizeMax: nat
    var entries: map<K, V>
    // Most recently used first.
    var lru: seq<K>

    ghost predicate Valid()
      reads this
    {
      Distinct(lru) && (forall k :: k in lru <==> k in entries) && |lru| <= sizeMax
    }

    constructor (sizeMax: nat)
      ensures Valid() && this.sizeMax == sizeMax && entries == map[] && lru == []
    {
      this.sizeMax := sizeMax;
      entries := map[];
      lru := [];
    }

    // Lookup of a key that may be present; it becomes the most recently used.
    method Find(key: K) returns (r: Option<V>)
      requires Valid()
      modifies this`lru
      ensures Valid()
      ensures r == if key in entries then Some(entries[key]) else None
      ensures lru == if key in entries then [key] + Without(old(lru), key) else old(lru)
      ensures forall i :: 0 <= i < |old(lru)| && old(lru)[i] == key ==>
                lru == [key] + (old(lru)[..i] + old(lru)[i + 1..])
    {
      if key !in entries {
        return None;
      }
      forall i | 0 <= i < |lru| && lru[i] == key ensures Without(lru, key) == lru[..i] + lru[i + 1..] {
        WithoutCuts(lru, key, i);
      }
      lru := [key] + Without(lru, key);
      return Some(entries[key]);
    }

    // Least recently used entries are dropped while there are too many.
    method Evict(key: K, ghost value: V, ghost before: map<K, V>)
      requires Holds(entries, lru, key, value, before)
      modifies this
      ensures Holds(entries, lru, key, value, before)
      ensures var kept := if |old(lru)| < sizeMax then |old(lru)| else if sizeMax == 0 then 0 else sizeMax - 1;
              lru == old(lru)[..kept]
    {
      HoldsCount(entries, lru, key, value, before);
      while |lru| > 0 && sizeMax < |entries|
        invariant |lru| <= |old(lru)| && lru == old(lru)[..|lru|]
        invariant Holds(entries, lru, key, value, before) && |entries| == |lru| + 1
        invariant |lru| == |old(lru)| || |lru| + 1 >= sizeMax
        decreases |lru|
      {
        entries := entries - {lru[|lru| - 1]};
        lru := lru[..|lru| - 1];
        HoldsCount(entries, lru, key, value, before);
      }
    }

    // The rest of Lookup after the builder has run: the new entry comes first, and as many of the least recently used
    // ones are dropped as the bound demands.
    method Insert(key: K, value: V)
      requires Valid() && key !in entries
      modifies this
      ensures Valid()
      ensures lru == if sizeMax == 0 then []
                     else [key] + old(lru)[..if |old(lru)| < sizeMax then |old(lru)| else sizeMax - 1]
      ensures sizeMax > 0 ==> key in entries && entries[key] == value
      ensures forall k :: k in entries && k != key ==> k in old(entries) && entries[k] == old(entries)[k]
    {
      if sizeMax > 0 {
        entries := entries[key := value];
        Evict(key, value, old(entries));
        lru := [key] + lru;
      }
    }
  }
}
