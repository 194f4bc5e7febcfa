/**
 The Python list operations the voting store relies on: membership (`in`),
 the first position of an element (what `list.index` returns) and
 `list.remove`, which deletes the first occurrence only.
 */
module Lists {

  /** No element occurs twice. */
  ghost predicate Distinct<T>(s: seq<T>) {
    forall i, j :: 0 <= i < j < |s| ==> s[i] != s[j]
  }

  /** The position of the first occurrence of `x` in `s`. */
  function FirstIndex<T(==)>(s: seq<T>, x: T): (i: nat)
    requires x in s
    ensures i < |s| && s[i] == x
    ensures forall k :: 0 <= k < i ==> s[k] != x
  {
    if s[0] == x then 0 else FirstIndex(s[1..], x) + 1
  }

  /** The first occurrence is the only position before which `x` does not occur. */
  lemma FirstIndexUnique<T>(s: seq<T>, x: T, j: nat)
    requires j < |s| && s[j] == x
    requires forall k :: 0 <= k < j ==> s[k] != x
    ensures FirstIndex(s, x) == j
  {
  }

  /** In a duplicate-free sequence every position is the first occurrence of its element. */
  lemma FirstIndexDistinct<T>(s: seq<T>, j: nat)
    requires Distinct(s) && j < |s|
    ensures FirstIndex(s, s[j]) == j
  {
    FirstIndexUnique(s, s[j], j);
  }

  /** `list.remove(x)`: the sequence without its first occurrence of `x`, in the same order. */
  function RemoveFirst<T(==)>(s: seq<T>, x: T): (r: seq<T>)
    requires x in s
    ensures |r| == |s| - 1
    ensures forall j :: 0 <= j < |r| ==> r[j] == s[if j < FirstIndex(s, x) then j else j + 1]
    ensures multiset(r) == multiset(s) - multiset{x}
  {
    var i := FirstIndex(s, x);
    assert s == s[..i] + [x] + s[i + 1..];
    s[..i] + s[i + 1..]
  }

  /** Removing an element from a duplicate-free sequence removes it completely,
      keeps every other element and leaves the sequence duplicate-free. */
  lemma RemoveFirstDistinct<T>(s: seq<T>, x: T)
    requires Distinct(s) && x in s
    ensures Distinct(RemoveFirst(s, x))
    ensures x !in RemoveFirst(s, x)
    ensures forall y :: y in RemoveFirst(s, x) <==> y in s && y != x
  {
    var r, i := RemoveFirst(s, x), FirstIndex(s, x);
    forall y | y in s && y != x
      ensures y in r
    {
      var k :| 0 <= k < |s| && s[k] == y;
      assert r[if k < i then k else k - 1] == y;
    }
  }

  /** Appending an element that is not present keeps a sequence duplicate-free. */
  lemma AppendDistinct<T>(s: seq<T>, x: T)
    requires Distinct(s) && x !in s
    ensures Distinct(s + [x])
  {
    var t := s + [x];
    forall i, j | 0 <= i < j < |t|
      ensures t[i] != t[j]
    {
      if j == |s| {
        assert t[i] == s[i];
      }
    }
  }
}
