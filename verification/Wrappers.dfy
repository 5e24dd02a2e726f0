/** Failure-carrying results and the identity types shared by every component. */
module Wrappers {
  datatype Option<+T> = None | Some(value: T)

  datatype Result<+T, +E> = Ok(value: T) | Err(error: E)
}

/** The identities that cross module borders: communication keys and FROST identifiers. */
module Identities {
  type PublicKey(==, !new, 0)
  type Identifier(==, !new, 0)

  /** No two keys share an identifier. */
  ghost predicate Injective(pubkeys: map<PublicKey, Identifier>) {
    forall k, l :: k in pubkeys && l in pubkeys && pubkeys[k] == pubkeys[l] ==> k == l
  }
}

/** Powers of two. */
module Powers {
  function Pow2(k: nat): (p: nat)
    ensures p > 0
  {
    if k == 0 then 1 else 2 * Pow2(k - 1)
  }
}

/**
 * Maps that are filled by one insertion per incoming message: every collecting phase of the
 * two session machines is one of these.
 */
module Collecting {
  /** All the messages of some batches. */
  function Flatten<T>(batches: seq<seq<T>>): seq<T> {
    if batches == [] then [] else batches[0] + Flatten(batches[1..])
  }

  /** The map left by performing `writes` in order. */
  function Latest<K, V>(writes: seq<(K, V)>): (m: map<K, V>) {
    if writes == [] then map[]
    else
      var last := |writes| - 1;
      Latest(writes[..last])[writes[last].0 := writes[last].1]
  }

  ghost function KeysOf<K, V>(writes: seq<(K, V)>): (keys: set<K>) {
    set w | w in writes :: w.0
  }

  /** Nobody writes twice. */
  ghost predicate OnePerKey<K, V>(writes: seq<(K, V)>) {
    forall i, j :: 0 <= i < j < |writes| ==> writes[i].0 != writes[j].0
  }

  /** A key is bound exactly when somebody wrote it, and then to what they wrote last. */
  lemma {:induction false} LastWriterWins<K, V>(writes: seq<(K, V)>, i: nat)
    requires i < |writes|
    requires forall j :: i < j < |writes| ==> writes[j].0 != writes[i].0
    ensures writes[i].0 in Latest(writes) && Latest(writes)[writes[i].0] == writes[i].1
  {
    var last := |writes| - 1;
    if i == last {
    } else {
      LastWriterWins(writes[..last], i);
    }
  }

  /** Where nobody writes twice, everything written is kept. */
  lemma AllWritesKept<K, V>(writes: seq<(K, V)>)
    requires OnePerKey(writes)
    ensures forall i | 0 <= i < |writes| :: writes[i].0 in Latest(writes) && Latest(writes)[writes[i].0] == writes[i].1
  {
    forall i | 0 <= i < |writes|
      ensures writes[i].0 in Latest(writes) && Latest(writes)[writes[i].0] == writes[i].1
    {
      LastWriterWins(writes, i);
    }
  }

  lemma {:induction false} LatestKeys<K, V>(writes: seq<(K, V)>)
    ensures Latest(writes).Keys == KeysOf(writes)
  {
    if writes == [] {
    } else {
      var last := |writes| - 1;
      LatestKeys(writes[..last]);
      assert writes == writes[..last] + [writes[last]];
    }
  }

  /** Reordering writes that name each key once does not change the map they leave. */
  lemma LatestIgnoresOrder<K, V>(a: seq<(K, V)>, b: seq<(K, V)>)
    requires OnePerKey(a) && OnePerKey(b) && forall w :: w in a <==> w in b
    ensures Latest(a) == Latest(b)
  {
    LatestKeys(a);
    LatestKeys(b);
    forall k | k in Latest(a) ensures k in Latest(b) && Latest(a)[k] == Latest(b)[k] {
      var i :| 0 <= i < |a| && a[i].0 == k;
      assert a[i] in b;
      var j :| 0 <= j < |b| && b[j] == a[i];
      LastWriterWins(a, i);
      LastWriterWins(b, j);
    }
    assert Latest(a).Keys == Latest(b).Keys;
  }

  /** The same messages, however ordered, make the same writes. */
  lemma SameWrites<M, W>(a: seq<M>, b: seq<M>, writesA: seq<W>, writesB: seq<W>)
    requires |writesA| == |a| && |writesB| == |b| && forall m :: m in a <==> m in b
    requires forall i, j :: 0 <= i < |a| && 0 <= j < |b| && a[i] == b[j] ==> writesA[i] == writesB[j]
    ensures forall w :: w in writesA <==> w in writesB
  {
    forall w | w in writesA ensures w in writesB {
      var i :| 0 <= i < |a| && writesA[i] == w;
      assert a[i] in b;
    }
    forall w | w in writesB ensures w in writesA {
      var j :| 0 <= j < |b| && writesB[j] == w;
      assert b[j] in a;
    }
  }

  /** Where nobody writes twice, the last writer is missing until the end. */
  lemma OpenUntilLast<K, V>(writes: seq<(K, V)>, all: set<K>)
    requires OnePerKey(writes) && KeysOf(writes) <= all
    ensures writes != [] ==> KeysOf(writes[..|writes| - 1]) != all
  {
    if writes != [] {
      var last := |writes| - 1;
      assert writes[last].0 in KeysOf(writes) && writes[last].0 !in KeysOf(writes[..last]);
    }
  }

  /** Somebody who is missing at the end was missing before. */
  lemma OpenBefore<K, V>(writes: seq<(K, V)>, all: set<K>)
    requires writes != [] && KeysOf(writes) <= all && KeysOf(writes[..|writes| - 1]) != all
    ensures Latest(writes[..|writes| - 1]).Keys < all
    ensures |writes| > 1 ==> KeysOf(writes[..|writes| - 1][..|writes| - 2]) != all
  {
    var last := |writes| - 1;
    assert KeysOf(writes[..last]) <= KeysOf(writes);
    LatestKeys(writes[..last]);
    if last > 0 {
      assert KeysOf(writes[..last][..last - 1]) <= KeysOf(writes[..last]);
    }
  }

  /** The same messages, one per key, in two orders: the same map, closing on the last of them. */
  lemma SameCollection<M, K, V>(a: seq<M>, b: seq<M>, writesA: seq<(K, V)>, writesB: seq<(K, V)>, all: set<K>)
    requires |writesA| == |a| && |writesB| == |b| && forall m :: m in a <==> m in b
    requires forall i, j :: 0 <= i < |a| && 0 <= j < |b| && a[i] == b[j] ==> writesA[i] == writesB[j]
    requires OnePerKey(writesA) && OnePerKey(writesB) && KeysOf(writesA) <= all && KeysOf(writesB) <= all
    ensures Latest(writesA) == Latest(writesB)
    ensures a != [] ==> KeysOf(writesA[..|a| - 1]) != all
    ensures b != [] ==> KeysOf(writesB[..|b| - 1]) != all
  {
    OpenUntilLast(writesA, all);
    OpenUntilLast(writesB, all);
    SameWrites(a, b, writesA, writesB);
    LatestIgnoresOrder(writesA, writesB);
  }

  /** A finite set inside another of the same size is that other set. */
  lemma SameSizeSubset<T>(a: set<T>, b: set<T>)
    requires a <= b
    ensures |a| <= |b|
    ensures |a| == |b| <==> a == b
  {
    assert b == a + (b - a);
    assert |b| == |a| + |b - a|;
  }

  /** An injective map has as many values as keys. */
  lemma {:induction false} InjectiveSize<K, V>(m: map<K, V>)
    requires forall k, l :: k in m && l in m && m[k] == m[l] ==> k == l
    ensures |m.Values| == |m|
    decreases |m|
  {
    if m.Keys == {} {
      assert m.Values == {};
      assert |m| == 0;
    } else {
      var k :| k in m;
      var rest := m - {k};
      assert rest.Keys == m.Keys - {k};
      InjectiveSize(rest);
      assert m.Values == rest.Values + {m[k]} by {
        forall v | v in m.Values ensures v in rest.Values + {m[k]} {
          var l :| l in m && m[l] == v;
          assert l != k ==> l in rest && rest[l] == v;
        }
      }
      assert m[k] !in rest.Values;
      assert |m| == |rest| + 1;
    }
  }
}
