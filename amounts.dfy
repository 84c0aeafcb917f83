/** Sums of amounts, added left to right from 0 as the dashboard and the
    balance display add them, and sums over the entries that
    share a key (a category, a date or a month). */
module Amounts {
  import opened Records
  import opened Seqs

  /** The sum of the amounts, added from the first entry to the last. */
  function Sum(items: seq<Entry>): (total: int)
    ensures items == [] ==> total == 0
    ensures (forall i :: 0 <= i < |items| ==> items[i].amount >= 0) ==> total >= 0
  {
    if items == [] then 0 else Sum(items[..|items| - 1]) + items[|items| - 1].amount
  }

  /** Some entry has key `k`. */
  ghost predicate HasKey<K>(items: seq<Entry>, key: Entry -> K, k: K)
  {
    exists j :: 0 <= j < |items| && key(items[j]) == k
  }

  /** The entries whose key is `k`, in their order. */
  function Select<K(==)>(items: seq<Entry>, key: Entry -> K, k: K): seq<Entry>
  {
    if items == [] then []
    else
      var last := items[|items| - 1];
      Select(items[..|items| - 1], key, k) + (if key(last) == k then [last] else [])
  }

  /** The entries whose key is not `k`, in their order. */
  function Reject<K(==)>(items: seq<Entry>, key: Entry -> K, k: K): seq<Entry>
  {
    if items == [] then []
    else
      var last := items[|items| - 1];
      Reject(items[..|items| - 1], key, k) + (if key(last) != k then [last] else [])
  }

  /** The test "the key is `k`" that `Select` keeps and `Reject` drops. */
  function KeyIs<K(==)>(key: Entry -> K, k: K): Entry -> bool
  {
    (e: Entry) => key(e) == k
  }

  function KeyIsNot<K(==)>(key: Entry -> K, k: K): Entry -> bool
  {
    (e: Entry) => key(e) != k
  }

  /** `Select` is the dashboard's `filter` on `key(e) === k`. */
  lemma {:induction false} SelectIsFilter<K>(items: seq<Entry>, key: Entry -> K, k: K)
    ensures Select(items, key, k) == Filter(items, KeyIs(key, k))
    decreases |items|
  {
    if items != [] {
      var init, last := items[..|items| - 1], items[|items| - 1];
      SelectIsFilter(init, key, k);
      assert items == init + [last];
      FilterAppend(init, last, KeyIs(key, k));
    }
  }

  /** `Reject` is the `filter` on `key(e) !== k`. */
  lemma {:induction false} RejectIsFilter<K>(items: seq<Entry>, key: Entry -> K, k: K)
    ensures Reject(items, key, k) == Filter(items, KeyIsNot(key, k))
    decreases |items|
  {
    if items != [] {
      var init, last := items[..|items| - 1], items[|items| - 1];
      RejectIsFilter(init, key, k);
      assert items == init + [last];
      FilterAppend(init, last, KeyIsNot(key, k));
    }
  }

  /** The sum over one key for each of `keys`, added in the order of `keys`. */
  function SumOverKeys<K(==)>(items: seq<Entry>, key: Entry -> K, keys: seq<K>): int
  {
    if keys == [] then 0 else Sum(Select(items, key, keys[0])) + SumOverKeys(items, key, keys[1..])
  }

  predicate Distinct<K(==)>(keys: seq<K>)
  {
    forall i, j :: 0 <= i < j < |keys| ==> keys[i] != keys[j]
  }

  /** Adding an entry at the end adds its amount. */
  lemma SumAppend(items: seq<Entry>, e: Entry)
    ensures Sum(items + [e]) == Sum(items) + e.amount
  {
    assert (items + [e])[..|items|] == items;
  }

  /** The sum of a concatenation is the sum of the sums. */
  lemma {:induction false} SumConcat(a: seq<Entry>, b: seq<Entry>)
    ensures Sum(a + b) == Sum(a) + Sum(b)
    decreases |b|
  {
    if b != [] {
      var b' := b[..|b| - 1];
      SumConcat(a, b');
      assert (a + b)[..|a + b| - 1] == a + b';
      assert Sum(a + b) == Sum(a + b') + b[|b| - 1].amount;
      assert Sum(b) == Sum(b') + b[|b| - 1].amount;
    } else {
      assert a + b == a;
    }
  }

  /** The sum does not depend on the order of the entries: any reordering of
      the same entries has the same sum. */
  lemma {:induction false} SumOfPermutation(a: seq<Entry>, b: seq<Entry>)
    requires multiset(a) == multiset(b)
    ensures Sum(a) == Sum(b)
    decreases |a|
  {
    if a == [] {
      assert |b| == |multiset(b)| == 0;
    } else {
      var init, last := a[..|a| - 1], a[|a| - 1];
      assert a == init + [last];
      assert last in multiset(b);
      var j :| 0 <= j < |b| && b[j] == last;
      var rest := b[..j] + b[j + 1..];
      assert b == b[..j] + [last] + b[j + 1..];
      assert multiset(rest) == multiset(b) - multiset{last};
      assert multiset(init) == multiset(a) - multiset{last};
      SumOfPermutation(init, rest);
      SumConcat(b[..j], b[j + 1..]);
      SumConcat(b[..j] + [last], b[j + 1..]);
      SumAppend(b[..j], last);
    }
  }

  /** The entries with key `k` and those without it share out the total. */
  lemma {:induction false} SumSplit<K>(items: seq<Entry>, key: Entry -> K, k: K)
    ensures Sum(items) == Sum(Select(items, key, k)) + Sum(Reject(items, key, k))
  {
    if items != [] {
      var init, last := items[..|items| - 1], items[|items| - 1];
      SumSplit(init, key, k);
      if key(last) == k {
        assert Select(items, key, k) == Select(init, key, k) + [last];
        assert Reject(items, key, k) == Reject(init, key, k);
        SumAppend(Select(init, key, k), last);
      } else {
        assert Select(items, key, k) == Select(init, key, k);
        assert Reject(items, key, k) == Reject(init, key, k) + [last];
        SumAppend(Reject(init, key, k), last);
      }
    }
  }

  /** Leaving out the entries with key `k` leaves the entries of any other key. */
  lemma {:induction false} SelectOfReject<K>(items: seq<Entry>, key: Entry -> K, k: K, k': K)
    requires k != k'
    ensures Select(Reject(items, key, k), key, k') == Select(items, key, k')
  {
    if items != [] {
      var init, last := items[..|items| - 1], items[|items| - 1];
      SelectOfReject(init, key, k, k');
      var rest := Reject(init, key, k);
      if key(last) != k {
        assert Reject(items, key, k) == rest + [last];
        assert (rest + [last])[..|rest|] == rest;
      } else {
        assert Reject(items, key, k) == rest;
        assert Select(items, key, k') == Select(init, key, k');
      }
    }
  }

  lemma {:induction false} SumOverKeysOfReject<K>(items: seq<Entry>, key: Entry -> K, k: K, keys: seq<K>)
    requires k !in keys
    ensures SumOverKeys(Reject(items, key, k), key, keys) == SumOverKeys(items, key, keys)
  {
    if keys != [] {
      SelectOfReject(items, key, k, keys[0]);
      SumOverKeysOfReject(items, key, k, keys[1..]);
    }
  }

  /** Conservation: when every entry's key is one of `keys`, and no key is
      listed twice, the per-key sums add up to the total. */
  lemma {:induction false} SumOverKeysIsTotal<K>(items: seq<Entry>, key: Entry -> K, keys: seq<K>)
    requires Distinct(keys)
    requires forall i :: 0 <= i < |items| ==> key(items[i]) in keys
    ensures SumOverKeys(items, key, keys) == Sum(items)
    decreases |keys|
  {
    if keys != [] {
      var k, rest := keys[0], keys[1..];
      var others := Reject(items, key, k);
      RejectMembers(items, key, k);
      forall i | 0 <= i < |others| ensures key(others[i]) in rest {
        assert others[i] in others;
        var j :| 0 <= j < |items| && items[j] == others[i];
        assert key(items[j]) in keys;
      }
      assert forall i :: 0 <= i < |rest| ==> rest[i] == keys[i + 1];
      SumOverKeysIsTotal(others, key, rest);
      SumOverKeysOfReject(items, key, k, rest);
      SumSplit(items, key, k);
    }
  }

  /** `Select` keeps exactly the entries with key `k`. */
  lemma {:induction false} SelectMembers<K>(items: seq<Entry>, key: Entry -> K, k: K)
    ensures forall e :: e in Select(items, key, k) <==> e in items && key(e) == k
  {
    if items != [] {
      var init := items[..|items| - 1];
      SelectMembers(init, key, k);
      assert items == init + [items[|items| - 1]];
    }
  }

  /** `Reject` keeps exactly the entries whose key is not `k`. */
  lemma {:induction false} RejectMembers<K>(items: seq<Entry>, key: Entry -> K, k: K)
    ensures forall e :: e in Reject(items, key, k) <==> e in items && key(e) != k
  {
    if items != [] {
      var init := items[..|items| - 1];
      RejectMembers(init, key, k);
      assert items == init + [items[|items| - 1]];
    }
  }

  /** No entry has key `k` exactly when selecting `k` gives nothing. */
  lemma SelectEmpty<K>(items: seq<Entry>, key: Entry -> K, k: K)
    ensures Select(items, key, k) == [] <==> !HasKey(items, key, k)
  {
    SelectMembers(items, key, k);
    var r := Select(items, key, k);
    if r != [] {
      assert r[0] in r;
      var j :| 0 <= j < |items| && items[j] == r[0];
    }
    if HasKey(items, key, k) {
      var j :| 0 <= j < |items| && key(items[j]) == k;
      assert items[j] in r;
    }
  }

  lemma HasKeyAppend<K>(items: seq<Entry>, e: Entry, key: Entry -> K, k: K)
    ensures HasKey(items + [e], key, k) <==> HasKey(items, key, k) || key(e) == k
  {
    if key(e) == k {
      assert (items + [e])[|items|] == e;
    }
    if HasKey(items, key, k) {
      var j :| 0 <= j < |items| && key(items[j]) == k;
      assert (items + [e])[j] == items[j];
    }
  }

  /** One more entry of `items` taken into account. */
  lemma SumSelectStep<K>(items: seq<Entry>, i: nat, key: Entry -> K, k: K)
    requires i < |items|
    ensures Sum(Select(items[..i + 1], key, k))
      == Sum(Select(items[..i], key, k)) + (if key(items[i]) == k then items[i].amount else 0)
    ensures HasKey(items[..i + 1], key, k) <==> HasKey(items[..i], key, k) || key(items[i]) == k
  {
    var prefix, e := items[..i + 1], items[i];
    assert prefix[..i] == items[..i] && prefix[i] == e;
    assert prefix == items[..i] + [e];
    if key(e) == k {
      assert Select(prefix, key, k) == Select(items[..i], key, k) + [e];
      SumAppend(Select(items[..i], key, k), e);
    } else {
      assert Select(prefix, key, k) == Select(items[..i], key, k) + [];
      assert Select(prefix, key, k) == Select(items[..i], key, k);
    }
    HasKeyAppend(items[..i], items[i], key, k);
  }
}
