/** The `lru::LruCache` operations that the idempotency shards and the token cache rely on.
    A cache is the sequence of its entries, least recently used first. */
module Lru {
  type Cache<K, V> = seq<(K, V)>

  /** What the cache holds, without the recency order. */
  function Contents<K, V>(c: Cache<K, V>): map<K, V> {
    if c == [] then map[] else Contents(c[1..])[c[0].0 := c[0].1]
  }

  predicate Distinct<K(==), V>(c: Cache<K, V>) {
    c == [] || (c[0].0 !in Contents(c[1..]) && Distinct(c[1..]))
  }

  function Without<K(==), V>(c: Cache<K, V>, k: K): Cache<K, V> {
    if c == [] then [] else if c[0].0 == k then c[1..] else [c[0]] + Without(c[1..], k)
  }

  /** `get` makes the entry the most recent one. */
  function Promoted<K(==), V>(c: Cache<K, V>, k: K): Cache<K, V> {
    if k in Contents(c) then Without(c, k) + [(k, Contents(c)[k])] else c
  }

  /** `put` replaces and promotes a present key; for an absent one it silently drops the oldest entry when full. */
  function Put<K(==), V>(c: Cache<K, V>, k: K, v: V, capacity: nat): Cache<K, V> {
    if k in Contents(c) then Without(c, k) + [(k, v)]
    else if |c| < capacity || c == [] then c + [(k, v)]
    else c[1..] + [(k, v)]
  }

  lemma {:induction false} WithoutContents<K, V>(c: Cache<K, V>, k: K)
    requires Distinct(c)
    ensures Distinct(Without(c, k)) && Contents(Without(c, k)) == Contents(c) - {k}
    ensures |Without(c, k)| == if k in Contents(c) then |c| - 1 else |c|
  {
    if c != [] {
      WithoutContents(c[1..], k);
      if c[0].0 != k {
        var w := Without(c, k);
        assert w[0] == c[0] && w[1..] == Without(c[1..], k);
      }
    }
  }

  lemma {:induction false} AppendContents<K, V>(c: Cache<K, V>, k: K, v: V)
    requires Distinct(c) && k !in Contents(c)
    ensures Distinct(c + [(k, v)]) && Contents(c + [(k, v)]) == Contents(c)[k := v]
  {
    var a := c + [(k, v)];
    if c == [] {
      assert a[1..] == [];
    } else {
      AppendContents(c[1..], k, v);
      assert a[0] == c[0] && a[1..] == c[1..] + [(k, v)];
    }
  }

  lemma {:induction false} ContentsSize<K, V>(c: Cache<K, V>)
    requires Distinct(c)
    ensures |Contents(c)| == |c|
  {
    if c != [] { ContentsSize(c[1..]); }
  }

  lemma PromotedContents<K, V>(c: Cache<K, V>, k: K)
    requires Distinct(c)
    ensures Distinct(Promoted(c, k)) && Contents(Promoted(c, k)) == Contents(c) && |Promoted(c, k)| == |c|
  {
    if k in Contents(c) { ReplaceContents(c, k, Contents(c)[k]); }
  }

  /** The oldest entry, which is all that eviction ever takes. */
  lemma PopOldestContents<K, V>(c: Cache<K, V>)
    requires Distinct(c) && c != []
    ensures Distinct(c[1..]) && Contents(c[1..]) == Contents(c) - {c[0].0} && c[0].0 in Contents(c)
  {}

  lemma ReplaceContents<K, V>(c: Cache<K, V>, k: K, v: V)
    requires Distinct(c) && k in Contents(c)
    ensures var p := Without(c, k) + [(k, v)]; Distinct(p) && Contents(p) == Contents(c)[k := v] && |p| == |c|
  {
    WithoutContents(c, k);
    AppendContents(Without(c, k), k, v);
    assert (Contents(c) - {k})[k := v] == Contents(c)[k := v];
  }

  lemma DropOldestContents<K, V>(c: Cache<K, V>, k: K, v: V)
    requires Distinct(c) && k !in Contents(c) && c != []
    ensures var p := c[1..] + [(k, v)]; Distinct(p) && Contents(p) == (Contents(c) - {c[0].0})[k := v] && |p| == |c|
  {
    PopOldestContents(c);
    AppendContents(c[1..], k, v);
  }

  lemma PutContents<K, V>(c: Cache<K, V>, k: K, v: V, capacity: nat)
    requires Distinct(c) && 1 <= capacity
    ensures var p := Put(c, k, v, capacity);
            && Distinct(p)
            && (|c| <= capacity ==> |p| <= capacity)
            && (k in Contents(c) || |c| < capacity ==> Contents(p) == Contents(c)[k := v])
            && |p| == (if k in Contents(c) || (|c| >= capacity && c != []) then |c| else |c| + 1)
            && k in Contents(p) && Contents(p)[k] == v
            && (k !in Contents(c) && |c| >= capacity && c != [] ==> Contents(p) == (Contents(c) - {c[0].0})[k := v])
  {
    if k in Contents(c) {
      ReplaceContents(c, k, v);
    } else if |c| < capacity || c == [] {
      AppendContents(c, k, v);
    } else {
      DropOldestContents(c, k, v);
    }
  }

  // ---------------------------------------------------------------- order of use

  datatype Use<K, V> = Get(key: K) | Set(key: K, value: V) | Pop(key: K) | PopOldest

  function Used<K(==), V>(c: Cache<K, V>, u: Use<K, V>, capacity: nat): Cache<K, V> {
    match u
    case Get(k) => Promoted(c, k)
    case Set(k, v) => Put(c, k, v, capacity)
    case Pop(k) => Without(c, k)
    case PopOldest => if c == [] then c else c[1..]
  }

  function AfterUses<K(==), V>(uses: seq<Use<K, V>>, capacity: nat): Cache<K, V> {
    if uses == [] then [] else Used(AfterUses(uses[..|uses| - 1], capacity), uses[|uses| - 1], capacity)
  }

  /** When a key was last asked for or stored: the length of the history up to then. */
  function LastUse<K(==), V>(uses: seq<Use<K, V>>, k: K): nat {
    if uses == [] then 0
    else
      var u := uses[|uses| - 1];
      if (u.Get? || u.Set?) && u.key == k then |uses| else LastUse(uses[..|uses| - 1], k)
  }

  ghost predicate Ordered<K, V>(c: Cache<K, V>, rank: K -> int) {
    forall i, j :: 0 <= i < j < |c| ==> rank(c[i].0) < rank(c[j].0)
  }

  lemma {:induction false} WithoutOrdered<K, V>(c: Cache<K, V>, k: K, rank: K -> int)
    requires Ordered(c, rank) && Distinct(c)
    ensures Ordered(Without(c, k), rank)
    ensures forall i :: 0 <= i < |Without(c, k)| ==> Without(c, k)[i] in c && Without(c, k)[i].0 != k
  {
    if c != [] {
      assert forall i :: 0 <= i < |c[1..]| ==> c[1..][i] == c[i + 1];
      if c[0].0 == k {
        KeysAreContents(c[1..]);
      } else {
        WithoutOrdered(c[1..], k, rank);
        var rest := Without(c[1..], k);
        forall i | 0 <= i < |rest|
          ensures rank(c[0].0) < rank(rest[i].0) && rest[i] in c
        {
          assert rest[i] in c[1..];
        }
      }
    }
  }

  lemma {:induction false} KeysAreContents<K, V>(c: Cache<K, V>)
    ensures forall i :: 0 <= i < |c| ==> c[i].0 in Contents(c)
  {
    if c != [] {
      KeysAreContents(c[1..]);
      assert forall i :: 1 <= i < |c| ==> c[i] == c[1..][i - 1];
    }
  }

  lemma NewestOrdered<K, V>(c: Cache<K, V>, e: (K, V), before: K -> int, rank: K -> int)
    requires Ordered(c, before)
    requires forall i :: 0 <= i < |c| ==> rank(c[i].0) == before(c[i].0) < rank(e.0)
    ensures Ordered(c + [e], rank)
  {}

  lemma {:induction false} LastUseWithin<K, V>(uses: seq<Use<K, V>>, k: K)
    ensures LastUse(uses, k) <= |uses|
  {
    if uses != [] { LastUseWithin(uses[..|uses| - 1], k); }
  }

  /** After any history the cache stands in the order in which its keys were last used, the least recent
      first, which is the one that eviction takes. */
  lemma {:induction false} CacheIsInOrderOfUse<K(!new), V>(uses: seq<Use<K, V>>, capacity: nat)
    requires 1 <= capacity
    ensures Distinct(AfterUses(uses, capacity)) && |AfterUses(uses, capacity)| <= capacity
    ensures Ordered(AfterUses(uses, capacity), k => LastUse(uses, k))
  {
    if uses != [] {
      var init, u := uses[..|uses| - 1], uses[|uses| - 1];
      CacheIsInOrderOfUse(init, capacity);
      UseKeepsOrder(init, u, AfterUses(init, capacity), capacity);
      assert init + [u] == uses;
    }
  }

  /** `rank` is `before`, but for the key used last. */
  ghost predicate RanksUse<K(!new), V>(u: Use<K, V>, before: K -> int, rank: K -> int, now: int) {
    forall k :: before(k) < now && rank(k) == if (u.Get? || u.Set?) && u.key == k then now else before(k)
  }

  lemma GetKeepsOrder<K(!new), V>(c: Cache<K, V>, k: K, before: K -> int, rank: K -> int, now: int)
    requires Distinct(c) && Ordered(c, before) && RanksUse<K, V>(Get(k), before, rank, now)
    ensures Ordered(Promoted(c, k), rank)
  {
    WithoutOrdered(c, k, before);
    if k in Contents(c) {
      NewestOrdered(Without(c, k), (k, Contents(c)[k]), before, rank);
    } else {
      KeysAreContents(c);
    }
  }

  lemma SetKeepsOrder<K(!new), V>(c: Cache<K, V>, k: K, v: V, capacity: nat, before: K -> int, rank: K -> int, now: int)
    requires Distinct(c) && Ordered(c, before) && RanksUse(Set(k, v), before, rank, now)
    ensures Ordered(Put(c, k, v, capacity), rank)
  {
    KeysAreContents(c);
    if k in Contents(c) {
      WithoutOrdered(c, k, before);
      NewestOrdered(Without(c, k), (k, v), before, rank);
    } else if |c| < capacity || c == [] {
      NewestOrdered(c, (k, v), before, rank);
    } else {
      assert forall i :: 0 <= i < |c[1..]| ==> c[1..][i] == c[i + 1];
      NewestOrdered(c[1..], (k, v), before, rank);
    }
  }

  lemma UseKeepsOrder<K(!new), V>(init: seq<Use<K, V>>, u: Use<K, V>, c: Cache<K, V>, capacity: nat)
    requires 1 <= capacity && Distinct(c) && |c| <= capacity && Ordered(c, k => LastUse(init, k))
    ensures var c' := Used(c, u, capacity);
            Distinct(c') && |c'| <= capacity && Ordered(c', k => LastUse(init + [u], k))
  {
    assert (init + [u])[..|init|] == init;
    var before: K -> int, rank: K -> int := k => LastUse(init, k), k => LastUse(init + [u], k);
    forall k
      ensures before(k) < |init| + 1
    {
      LastUseWithin(init, k);
    }
    assert RanksUse(u, before, rank, |init| + 1);
    match u
    case Get(k) =>
      PromotedContents(c, k);
      GetKeepsOrder(c, k, before, rank, |init| + 1);
    case Set(k, v) =>
      PutContents(c, k, v, capacity);
      SetKeepsOrder(c, k, v, capacity, before, rank, |init| + 1);
    case Pop(k) =>
      WithoutContents(c, k);
      WithoutOrdered(c, k, before);
    case PopOldest =>
      if c != [] { PopOldestContents(c); }
  }
}
