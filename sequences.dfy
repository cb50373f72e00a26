/**
 * Positional edits of sequences shared by the containers: the abstract
 * effect of inserting into and removing from the middle of a `Dynamic_Array`
 * or a `Linked_List`.
 */
module Sequences {

  /** `s` with `x` placed at position `i` and the later elements shifted right. */
  function InsertAt<T>(s: seq<T>, i: nat, x: T): (r: seq<T>)
    requires i <= |s|
    ensures |r| == |s| + 1 && r[i] == x
    ensures forall j :: 0 <= j < i ==> r[j] == s[j]
    ensures forall j :: i < j < |r| ==> r[j] == s[j - 1]
  {
    s[..i] + [x] + s[i..]
  }

  /** `s` without its element at position `i`, the later elements shifted left. */
  function RemoveAt<T>(s: seq<T>, i: nat): (r: seq<T>)
    requires i < |s|
    ensures |r| == |s| - 1
    ensures forall j :: 0 <= j < i ==> r[j] == s[j]
    ensures forall j :: i <= j < |r| ==> r[j] == s[j + 1]
  {
    s[..i] + s[i + 1..]
  }

  /** Removing what was just inserted gives back the original sequence. */
  lemma {:induction false} RemoveInsertedAt<T>(s: seq<T>, i: nat, x: T)
    requires i <= |s|
    ensures RemoveAt(InsertAt(s, i, x), i) == s
  {
    var r := RemoveAt(InsertAt(s, i, x), i);
    assert |r| == |s|;
    forall j | 0 <= j < |s| ensures r[j] == s[j] {
    }
  }

  /** No element occurs twice in `s`. */
  ghost predicate Distinct<T>(s: seq<T>) {
    forall i, j :: 0 <= i < j < |s| ==> s[i] != s[j]
  }

  /** Inserting an element that does not occur keeps a sequence free of repetitions. */
  lemma DistinctInsertAt<T>(s: seq<T>, i: nat, x: T)
    requires Distinct(s) && x !in s && i <= |s|
    ensures Distinct(InsertAt(s, i, x))
  {
    var r := InsertAt(s, i, x);
    forall j, k | 0 <= j < k < |r| ensures r[j] != r[k] {
      if k < i {
        assert r[j] == s[j] && r[k] == s[k];
      } else if j > i {
        assert r[j] == s[j - 1] && r[k] == s[k - 1];
      } else if j < i < k {
        assert r[j] == s[j] && r[k] == s[k - 1];
      } else if j == i {
        assert r[k] == s[k - 1];
      } else {
        assert r[j] == s[j];
      }
    }
  }

  /** Removing an element keeps a sequence free of repetitions and drops exactly that element. */
  lemma DistinctRemoveAt<T>(s: seq<T>, i: nat)
    requires Distinct(s) && i < |s|
    ensures Distinct(RemoveAt(s, i)) && s[i] !in RemoveAt(s, i)
  {
    var r := RemoveAt(s, i);
    forall j, k | 0 <= j < k < |r| ensures r[j] != r[k] {
      if k < i {
        assert r[j] == s[j] && r[k] == s[k];
      } else if j >= i {
        assert r[j] == s[j + 1] && r[k] == s[k + 1];
      } else {
        assert r[j] == s[j] && r[k] == s[k + 1];
      }
    }
    forall j | 0 <= j < |r| ensures r[j] != s[i] {
      if j < i {
        assert r[j] == s[j];
      } else {
        assert r[j] == s[j + 1];
      }
    }
  }

  /** Removing position `i` takes exactly one occurrence of `s[i]` out of the multiset of elements. */
  lemma MultisetRemoveAt<T>(s: seq<T>, i: nat)
    requires i < |s|
    ensures multiset(RemoveAt(s, i)) == multiset(s) - multiset{s[i]}
  {
    assert s == s[..i] + [s[i]] + s[i + 1..];
    assert RemoveAt(s, i) == s[..i] + s[i + 1..];
  }

  /** The position of the first space in `s` at or after `i`, or `|s|` when there is none. */
  function FirstSpace(s: string, i: nat): (j: nat)
    requires i <= |s|
    ensures i <= j <= |s| && (j < |s| ==> s[j] == ' ')
    ensures forall k :: i <= k < j ==> s[k] != ' '
    decreases |s| - i
  {
    if i == |s| || s[i] == ' ' then i else FirstSpace(s, i + 1)
  }
}
