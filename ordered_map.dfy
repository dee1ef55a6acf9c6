/** The backing store of a storage object: a JavaScript `Map<string, string>`,
    which remembers the order in which its keys were first inserted. */
module OrderedMaps {
  import opened Wrappers

  /** No element occurs twice in `s`. */
  ghost predicate NoDuplicates<T>(s: seq<T>) {
    forall i, j :: 0 <= i < j < |s| ==> s[i] != s[j]
  }

  /** `s` with every occurrence of `x` taken out, the rest in their order. */
  function Without<T(==, !new)>(s: seq<T>, x: T): (r: seq<T>)
    ensures forall y :: y in r <==> y in s && y != x
    ensures x !in s ==> r == s
    ensures NoDuplicates(s) ==> NoDuplicates(r)
    ensures NoDuplicates(s) && x in s ==> |r| == |s| - 1
  {
    if s == [] then []
    else if s[0] == x then Without(s[1..], x)
    else
      var rest := Without(s[1..], x);
      assert NoDuplicates(s) ==> NoDuplicates(s[1..]) && s[0] !in rest by {
        if NoDuplicates(s) {
          forall k | 0 <= k < |s| - 1 ensures s[1..][k] != s[0] {
            assert s[1..][k] == s[k + 1];
          }
        }
      }
      [s[0]] + rest
  }

  /** The tail of a duplicate-free sequence is duplicate-free and lacks the head. */
  lemma TailDistinct<T>(s: seq<T>)
    requires NoDuplicates(s) && s != []
    ensures NoDuplicates(s[1..]) && s[0] !in s[1..]
  {
    forall i, j | 0 <= i < j < |s| - 1 ensures s[1..][i] != s[1..][j] {
      assert s[1..][i] == s[i + 1] && s[1..][j] == s[j + 1];
    }
    forall k | 0 <= k < |s| - 1 ensures s[1..][k] != s[0] {
      assert s[1..][k] == s[k + 1];
    }
  }

  /** Taking out the one occurrence of `x`, at position `p`, closes the gap and
      keeps every other element in its order. */
  lemma {:induction false} WithoutAt<T(!new)>(s: seq<T>, x: T, p: nat)
    requires NoDuplicates(s)
    requires p < |s| && s[p] == x
    ensures Without(s, x) == s[..p] + s[p + 1..]
  {
    TailDistinct(s);
    if p == 0 {
      assert Without(s, x) == Without(s[1..], x) == s[1..];
    } else {
      var tail := s[1..];
      assert s[0] != x;
      assert tail[p - 1] == x;
      WithoutAt(tail, x, p - 1);
      assert Without(s, x) == [s[0]] + Without(tail, x);
      assert s[..p] == [s[0]] + tail[..p - 1];
      assert s[p + 1..] == tail[p..];
    }
  }

  /** A sequence without duplicates has as many elements as the set of its elements. */
  lemma {:induction false} DistinctCardinality<T>(s: seq<T>)
    requires NoDuplicates(s)
    ensures |set x | x in s| == |s|
  {
    if s != [] {
      var init, last := s[..|s| - 1], s[|s| - 1];
      assert NoDuplicates(init);
      DistinctCardinality(init);
      assert s == init + [last];
      assert (set x | x in s) == (set x | x in init) + {last};
      assert last !in init by {
        forall i | 0 <= i < |init| ensures init[i] != last {
          assert s[i] == init[i];
        }
      }
    }
  }

  /** A `Map<string, string>`: `keys` lists the keys in insertion order and
      `entries` gives the value stored under each. */
  datatype OrderedMap = OrderedMap(keys: seq<string>, entries: map<string, string>) {

    /** The order lists each stored key exactly once and nothing else. */
    ghost predicate Wf() {
      && NoDuplicates(keys)
      && forall k :: k in entries <==> k in keys
    }

    /** `map.size` */
    function Size(): nat {
      |keys|
    }

    /** `map.has(k)` */
    predicate Has(k: string) {
      k in entries
    }

    /** `map.get(k)`, with `undefined` as `None` */
    function Get(k: string): (r: Option<string>)
      ensures r.Some? <==> Has(k)
      ensures r.Some? ==> r.value == entries[k]
    {
      if k in entries then Some(entries[k]) else None
    }

    /** `map.set(k, v)`: an existing key keeps its place, a new one goes last. */
    function Set(k: string, v: string): OrderedMap {
      OrderedMap(if k in entries then keys else keys + [k], entries[k := v])
    }

    /** `map.delete(k)` */
    function Delete(k: string): OrderedMap {
      OrderedMap(Without(keys, k), entries - {k})
    }

    /** `Array.from(map.values())` */
    function Values(): (r: seq<string>)
      requires Wf()
      ensures |r| == Size()
      ensures forall i :: 0 <= i < |r| ==> r[i] == entries[keys[i]]
    {
      seq(|keys|, i requires 0 <= i < |keys| => entries[keys[i]])
    }

    /** `Array.from(map.entries())` */
    function Pairs(): (r: seq<(string, string)>)
      requires Wf()
      ensures |r| == Size()
      ensures forall i :: 0 <= i < |r| ==> r[i] == (keys[i], entries[keys[i]])
    {
      seq(|keys|, i requires 0 <= i < |keys| => (keys[i], entries[keys[i]]))
    }
  }

  /** `new Map()` */
  function Empty(): (m: OrderedMap)
    ensures m.Wf() && m.Size() == 0
    ensures forall k :: !m.Has(k)
  {
    OrderedMap([], map[])
  }

  /** The cached count of a well-formed map is the number of its entries. */
  lemma SizeIsEntryCount(m: OrderedMap)
    requires m.Wf()
    ensures m.Size() == |m.entries|
  {
    DistinctCardinality(m.keys);
    assert m.entries.Keys == set x | x in m.keys;
  }

  /** `set` stores `v` under `k`, leaves every other key's value alone, grows the
      map by one exactly when `k` is new, keeps every existing key where it was
      and puts a new key last. */
  lemma SetSpec(m: OrderedMap, k: string, v: string)
    requires m.Wf()
    ensures m.Set(k, v).Wf()
    ensures m.Set(k, v).Get(k) == Some(v)
    ensures forall j :: j != k ==> m.Set(k, v).Get(j) == m.Get(j)
    ensures m.Set(k, v).Size() == if m.Has(k) then m.Size() else m.Size() + 1
    ensures forall i :: 0 <= i < m.Size() ==> m.Set(k, v).keys[i] == m.keys[i]
    ensures !m.Has(k) ==> m.Set(k, v).keys[m.Size()] == k
  {
  }

  /** `delete` removes `k`, leaves every other key's value alone, shrinks the map
      by one exactly when `k` was present and keeps the remaining keys in order. */
  lemma DeleteSpec(m: OrderedMap, k: string)
    requires m.Wf()
    ensures m.Delete(k).Wf()
    ensures !m.Delete(k).Has(k)
    ensures forall j :: j != k ==> m.Delete(k).Get(j) == m.Get(j)
    ensures m.Delete(k).Size() == if m.Has(k) then m.Size() - 1 else m.Size()
    ensures !m.Has(k) ==> m.Delete(k).keys == m.keys
    ensures m.Has(k) ==>
      exists p :: 0 <= p < |m.keys| && m.keys[p] == k && m.Delete(k).keys == m.keys[..p] + m.keys[p + 1..]
  {
    if m.Has(k) {
      var p :| 0 <= p < |m.keys| && m.keys[p] == k;
      WithoutAt(m.keys, k, p);
    }
  }
}
