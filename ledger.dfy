/**
 The vote ledger `votes`: a Python dictionary from team name to entry.
 Python dictionaries remember insertion order, and the results table is
 printed in that order, so the ledger is a sequence of (team, entry) slots:
 assigning to an existing key overwrites its slot in place, assigning to a
 new key appends a slot, and `del` splices the slot out.
 */
module Ledger {
  import opened Lists
  import opened Tally

  datatype Slot = Slot(team: string, entry: Entry)

  type Dict = seq<Slot>

  /** The keys of the dictionary in iteration order. */
  function Keys(d: Dict): (ks: seq<string>)
    ensures |ks| == |d|
    ensures forall i :: 0 <= i < |d| ==> ks[i] == d[i].team
  {
    seq(|d|, i requires 0 <= i < |d| => d[i].team)
  }

  /** A Python dictionary never holds a key twice. */
  ghost predicate DistinctKeys(d: Dict) {
    Distinct(Keys(d))
  }

  /** `d[k]`. */
  function Get(d: Dict, k: string): (e: Entry)
    requires k in Keys(d)
    ensures Slot(k, e) in d
    ensures DistinctKeys(d) ==> forall s :: s in d && s.team == k ==> s.entry == e
  {
    var i := FirstIndex(Keys(d), k);
    assert d[i] == Slot(k, d[i].entry);
    assert DistinctKeys(d) ==> forall j :: 0 <= j < |d| && d[j].team == k ==> j == i by {
      assert forall j :: 0 <= j < |d| ==> Keys(d)[j] == d[j].team;
    }
    d[i].entry
  }

  /** In a dictionary every slot holds the value of its key. */
  lemma GetAt(d: Dict, j: nat)
    requires DistinctKeys(d) && j < |d|
    ensures d[j].team in Keys(d) && Get(d, d[j].team) == d[j].entry
  {
    assert Keys(d)[j] == d[j].team;
    FirstIndexDistinct(Keys(d), j);
  }

  /** `d[k] = e`: overwriting keeps the key where it was, a new key goes last. */
  function Put(d: Dict, k: string, e: Entry): (r: Dict)
    ensures Keys(r) == if k in Keys(d) then Keys(d) else Keys(d) + [k]
    ensures k in Keys(r) && Get(r, k) == e
    ensures forall k' :: k' != k && k' in Keys(d) ==> Get(r, k') == Get(d, k')
    ensures forall s :: s in r ==> s in d || s == Slot(k, e)
    ensures DistinctKeys(d) ==> DistinctKeys(r)
  {
    if k in Keys(d) then
      var i := FirstIndex(Keys(d), k);
      var r := d[i := Slot(k, e)];
      assert Keys(r) == Keys(d);
      r
    else
      var r := d + [Slot(k, e)];
      assert Keys(r) == Keys(d) + [k];
      PutNewKeyKeeps(d, k, e);
      FirstIndexUnique(Keys(r), k, |d|);
      r
  }

  /** Appending a new key leaves the position of every existing key alone. */
  lemma PutNewKeyKeeps(d: Dict, k: string, e: Entry)
    requires k !in Keys(d)
    ensures Keys(d + [Slot(k, e)]) == Keys(d) + [k]
    ensures forall k' :: k' in Keys(d) ==> Get(d + [Slot(k, e)], k') == Get(d, k')
    ensures DistinctKeys(d) ==> DistinctKeys(d + [Slot(k, e)])
  {
    var r := d + [Slot(k, e)];
    assert Keys(r) == Keys(d) + [k];
    if DistinctKeys(d) {
      AppendDistinct(Keys(d), k);
    }
    forall k' | k' in Keys(d)
      ensures Get(r, k') == Get(d, k')
    {
      var i := FirstIndex(Keys(d), k');
      FirstIndexUnique(Keys(r), k', i);
    }
  }

  /** `del d[k]` when `k` is a key; `d` itself otherwise. */
  function Remove(d: Dict, k: string): (r: Dict)
    ensures k !in Keys(d) ==> r == d
    ensures k in Keys(d) ==> Keys(r) == RemoveFirst(Keys(d), k)
    ensures forall s :: s in r ==> s in d
    ensures DistinctKeys(d) ==> DistinctKeys(r) && k !in Keys(r)
    ensures DistinctKeys(d) ==> forall k' :: k' != k && k' in Keys(d) ==> k' in Keys(r) && Get(r, k') == Get(d, k')
  {
    if k in Keys(d) then
      var i := FirstIndex(Keys(d), k);
      var r := d[..i] + d[i + 1..];
      assert Keys(r) == RemoveFirst(Keys(d), k);
      assert forall s :: s in r ==> s in d by {
        assert forall j :: 0 <= j < |r| ==> r[j] == d[if j < i then j else j + 1];
      }
      RemoveKeeps(d, k);
      r
    else
      d
  }

  /** Splicing out a key's slot leaves every other key with its value. */
  lemma RemoveKeeps(d: Dict, k: string)
    requires k in Keys(d)
    ensures var i := FirstIndex(Keys(d), k); var r := d[..i] + d[i + 1..];
      DistinctKeys(d) ==>
        (DistinctKeys(r) && k !in Keys(r) &&
         forall k' :: k' != k && k' in Keys(d) ==> k' in Keys(r) && Get(r, k') == Get(d, k'))
  {
    var i := FirstIndex(Keys(d), k);
    var r := d[..i] + d[i + 1..];
    assert Keys(r) == RemoveFirst(Keys(d), k);
    if DistinctKeys(d) {
      RemoveFirstDistinct(Keys(d), k);
    }
    forall k' | DistinctKeys(d) && k' != k && k' in Keys(d)
      ensures Get(r, k') == Get(d, k')
    {
      var j := FirstIndex(Keys(d), k');
      var jr := if j < i then j else j - 1;
      assert r[jr] == d[j];
      GetAt(d, j);
      GetAt(r, jr);
    }
  }

  /** A key deleted and later added again comes last. */
  lemma ReAddedKeyGoesLast(d: Dict, k: string, e: Entry)
    requires DistinctKeys(d) && k in Keys(d)
    ensures Keys(Put(Remove(d, k), k, e)) == RemoveFirst(Keys(d), k) + [k]
  {
  }
}
