/** Record ids: how the backend picks the id of a new record, how it finds a
    record by id, and the ordering of stored ids that keeps new ids fresh. */
module Ids {
  import opened Records
  import opened Seqs

  /** The stored ids grow strictly from the first record to the last. */
  predicate StrictlyIncreasing(ids: seq<int>)
  {
    forall i, j :: 0 <= i < j < |ids| ==> ids[i] < ids[j]
  }

  /** The id of a new record: the LAST record's id plus one, or 1 for an
      empty collection. It is fresh when the stored ids increase. */
  function NextId(ids: seq<int>): (n: int)
    ensures ids == [] ==> n == 1
    ensures StrictlyIncreasing(ids) ==> forall x :: x in ids ==> x < n
  {
    if |ids| == 0 then 1 else ids[|ids| - 1] + 1
  }

  /** The index of the first record with that
      id, or -1. An id that is NaN (`None`) matches no record. */
  function IndexOf(ids: seq<int>, id: Option<int>): (k: int)
    ensures -1 <= k < |ids|
    ensures k == -1 <==> forall j :: 0 <= j < |ids| ==> Some(ids[j]) != id
    ensures 0 <= k ==> Some(ids[k]) == id && forall j :: 0 <= j < k ==> ids[j] != ids[k]
  {
    if ids == [] then -1
    else if Some(ids[0]) == id then 0
    else
      var k := IndexOf(ids[1..], id);
      if k == -1 then -1 else k + 1
  }

  /** The ids of the records, in record order. */
  function IdsOf<T>(s: seq<T>, idOf: T -> int): (ids: seq<int>)
    ensures |ids| == |s|
    ensures forall i :: 0 <= i < |s| ==> ids[i] == idOf(s[i])
  {
    seq(|s|, i requires 0 <= i < |s| => idOf(s[i]))
  }

  function CategoryIds(cats: seq<Category>): seq<int>
  {
    IdsOf(cats, (c: Category) => c.id)
  }

  function EntryIds(entries: seq<Entry>): seq<int>
  {
    IdsOf(entries, (e: Entry) => e.id)
  }

  /** The ids of a collection with one record spliced out. */
  lemma IdsOfSplice<T>(s: seq<T>, idOf: T -> int, k: nat)
    requires k < |s|
    ensures IdsOf(s[..k] + s[k + 1..], idOf) == IdsOf(s, idOf)[..k] + IdsOf(s, idOf)[k + 1..]
  {
    var a, b := IdsOf(s[..k] + s[k + 1..], idOf), IdsOf(s, idOf)[..k] + IdsOf(s, idOf)[k + 1..];
    assert |a| == |b|;
    forall i | 0 <= i < |a| ensures a[i] == b[i] {
      if i < k {
        assert a[i] == idOf(s[i]);
      } else {
        assert a[i] == idOf(s[i + 1]);
      }
    }
  }

  /** Splicing a record out keeps the record ids increasing. */
  lemma SpliceKeepsIdsIncreasing<T>(s: seq<T>, idOf: T -> int, k: nat)
    requires k < |s| && StrictlyIncreasing(IdsOf(s, idOf))
    ensures StrictlyIncreasing(IdsOf(s[..k] + s[k + 1..], idOf))
  {
    IdsOfSplice(s, idOf, k);
    RemoveAtIncreasing(IdsOf(s, idOf), k);
  }

  /** Appending a record with the next id keeps the ids increasing. */
  lemma AppendNextId(ids: seq<int>)
    requires StrictlyIncreasing(ids)
    ensures StrictlyIncreasing(ids + [NextId(ids)])
  {
    var n := NextId(ids);
    var r := ids + [n];
    forall i, j | 0 <= i < j < |r| ensures r[i] < r[j] {
      if j == |ids| {
        assert r[i] in ids;
      }
    }
  }

  /** A subsequence of increasing ids is increasing. */
  lemma {:induction false} SubsequenceIncreasing(a: seq<int>, b: seq<int>)
    requires IsSubsequence(a, b) && StrictlyIncreasing(b)
    ensures StrictlyIncreasing(a)
    ensures a != [] && b != [] ==> b[0] <= a[0]
    decreases |b|
  {
    if a != [] && b != [] {
      if a[0] == b[0] && IsSubsequence(a[1..], b[1..]) {
        SubsequenceIncreasing(a[1..], b[1..]);
        forall j | 0 < j < |a| ensures a[0] < a[j] {
          assert b[1..][0] <= a[1..][0];
        }
      } else {
        SubsequenceIncreasing(a, b[1..]);
      }
    }
  }

  /** The ids of a subsequence are a subsequence of the ids. */
  lemma {:induction false} IdsOfSubsequence<T>(a: seq<T>, b: seq<T>, idOf: T -> int)
    requires IsSubsequence(a, b)
    ensures IsSubsequence(IdsOf(a, idOf), IdsOf(b, idOf))
    decreases |b|
  {
    if a != [] {
      var ia, ib := IdsOf(a, idOf), IdsOf(b, idOf);
      assert ib[1..] == IdsOf(b[1..], idOf);
      if a[0] == b[0] && IsSubsequence(a[1..], b[1..]) {
        IdsOfSubsequence(a[1..], b[1..], idOf);
        assert ia[1..] == IdsOf(a[1..], idOf) && ia[0] == ib[0];
      } else {
        IdsOfSubsequence(a, b[1..], idOf);
      }
    }
  }

  /** The ids of a filtered collection are a subsequence of its ids. */
  lemma FilterIdsSubsequence(s: seq<Entry>, keep: Entry -> bool)
    ensures IsSubsequence(EntryIds(Filter(s, keep)), EntryIds(s))
  {
    FilterIsSubsequence(s, keep);
    IdsOfSubsequence(Filter(s, keep), s, (e: Entry) => e.id);
  }

  /** Removing one record keeps the ids increasing. */
  lemma RemoveAtIncreasing(ids: seq<int>, k: nat)
    requires k < |ids| && StrictlyIncreasing(ids)
    ensures StrictlyIncreasing(ids[..k] + ids[k + 1..])
  {
    var r := ids[..k] + ids[k + 1..];
    forall i, j | 0 <= i < j < |r| ensures r[i] < r[j] {
      var i' := if i < k then i else i + 1;
      var j' := if j < k then j else j + 1;
      assert r[i] == ids[i'] && r[j] == ids[j'];
    }
  }

  /** The ids given to `n` records created one after another in an empty
      collection. */
  function CreatedIds(n: nat): seq<int>
  {
    if n == 0 then [] else var prior := CreatedIds(n - 1); prior + [NextId(prior)]
  }

  /** Creating `n` records from empty gives them the ids 1..n in order. */
  lemma {:induction false} CreatedIdsOneToN(n: nat)
    ensures |CreatedIds(n)| == n
    ensures forall i :: 0 <= i < n ==> CreatedIds(n)[i] == i + 1
  {
    if n > 0 {
      CreatedIdsOneToN(n - 1);
    }
  }

  /** Every id was given by a create with the next id of the ids before it,
      starting from an empty or missing collection: the history of a
      collection that only `POST` handlers have added to. */
  predicate PostedInTurn(ids: seq<int>)
  {
    ids == [] || (PostedInTurn(ids[..|ids| - 1]) && ids[|ids| - 1] == NextId(ids[..|ids| - 1]))
  }

  /** Appending the next id keeps the ids increasing and the history intact. */
  lemma AppendWithNextId(ids: seq<int>)
    ensures StrictlyIncreasing(ids) ==> StrictlyIncreasing(ids + [NextId(ids)])
    ensures PostedInTurn(ids) ==> PostedInTurn(ids + [NextId(ids)])
  {
    assert (ids + [NextId(ids)])[..|ids|] == ids;
    if StrictlyIncreasing(ids) {
      AppendNextId(ids);
    }
  }

  /** Ids given one after another from empty are 1, 2, ..., n. */
  lemma {:induction false} PostedIdsAreOneToN(ids: seq<int>)
    requires PostedInTurn(ids)
    ensures ids == CreatedIds(|ids|)
    ensures forall i :: 0 <= i < |ids| ==> ids[i] == i + 1
  {
    if ids != [] {
      PostedIdsAreOneToN(ids[..|ids| - 1]);
      assert ids == ids[..|ids| - 1] + [ids[|ids| - 1]];
    }
    CreatedIdsOneToN(|ids|);
  }

  /** Splicing out a record of a collection whose ids increase removes every
      record with that id and keeps all the others, in their order. */
  lemma RemoveRecordWithId<T>(s: seq<T>, idOf: T -> int, id: Option<int>, k: nat)
    requires k < |s| && Some(idOf(s[k])) == id
    requires forall i, j :: 0 <= i < j < |s| ==> idOf(s[i]) < idOf(s[j])
    ensures var r := s[..k] + s[k + 1..];
      && |r| == |s| - 1
      && IsSubsequence(r, s)
      && (forall x :: x in r ==> Some(idOf(x)) != id)
      && (forall x :: x in s && Some(idOf(x)) != id ==> x in r)
  {
    var r := s[..k] + s[k + 1..];
    RemoveAtIsSubsequence(s, k);
    assert forall x :: x in r ==> Some(idOf(x)) != id by {
      forall x | x in r ensures Some(idOf(x)) != id {
        var j :| 0 <= j < |r| && r[j] == x;
        if j < k {
          assert x == s[j] && idOf(s[j]) < idOf(s[k]);
        } else {
          assert x == s[j + 1] && idOf(s[k]) < idOf(s[j + 1]);
        }
      }
    }
    assert forall x :: x in s && Some(idOf(x)) != id ==> x in r by {
      forall x | x in s && Some(idOf(x)) != id ensures x in r {
        var j :| 0 <= j < |s| && s[j] == x;
        if j < k {
          assert r[j] == x;
        } else {
          assert r[j - 1] == x;
        }
      }
    }
  }
}
