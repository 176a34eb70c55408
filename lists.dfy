/** `list.remove`, the one Python list operation the connection registry uses
  * that is written here as a function (delete the first occurrence; raises
  * when the element is absent), the search for that first occurrence inside
  * it, and two predicates about lists, "no element twice" and "is a
  * subsequence of". */
module Lists {

  /** No element occurs twice. */
  ghost predicate NoDup<T>(s: seq<T>) {
    forall i, j :: 0 <= i < j < |s| ==> s[i] != s[j]
  }

  /** `a` can be obtained from `b` by deleting elements: the elements of `a`
    * occur in `b` in the same relative order. */
  ghost predicate IsSubseq<T>(a: seq<T>, b: seq<T>)
    decreases |b|
  {
    if a == [] then true
    else if b == [] then false
    else (a[0] == b[0] && IsSubseq(a[1..], b[1..])) || IsSubseq(a, b[1..])
  }

  /** The position of the first occurrence of `x`: the one `s.remove(x)`
    * deletes. */
  function IndexOf<T(==)>(s: seq<T>, x: T): (k: nat)
    requires x in s
    ensures k < |s| && s[k] == x
    ensures x !in s[..k]
  {
    if s[0] == x then 0
    else
      var k := 1 + IndexOf(s[1..], x);
      assert s[..k] == [s[0]] + s[1..][..k - 1];
      k
  }

  /** Python `s.remove(x)`: deletes one occurrence of `x`, the first one (see
    * `RemoveFirstDeletesFirst`). Python's `remove` raises `ValueError` when
    * `x` is absent; callers must rule that out. */
  function RemoveFirst<T(==)>(s: seq<T>, x: T): (r: seq<T>)
    requires x in s
    ensures |r| == |s| - 1
    ensures forall y :: y in r ==> y in s
  {
    if s[0] == x then s[1..]
    else [s[0]] + RemoveFirst(s[1..], x)
  }

  /** `list.remove` deletes exactly the first occurrence: the elements before
    * and after it keep their order. */
  lemma {:induction false} RemoveFirstDeletesFirst<T>(s: seq<T>, x: T)
    requires x in s
    ensures RemoveFirst(s, x) == s[..IndexOf(s, x)] + s[IndexOf(s, x) + 1..]
  {
    if s[0] == x {
      assert s[..0] == [];
    } else {
      RemoveFirstDeletesFirst(s[1..], x);
      ConsRemoved(s, x, RemoveFirst(s[1..], x));
    }
  }

  /** The step of `RemoveFirst` past a head that is not `x`. */
  lemma ConsRemoved<T>(s: seq<T>, x: T, rest: seq<T>)
    requires x in s && s[0] != x
    requires rest == s[1..][..IndexOf(s[1..], x)] + s[1..][IndexOf(s[1..], x) + 1..]
    ensures [s[0]] + rest == s[..IndexOf(s, x)] + s[IndexOf(s, x) + 1..]
  {
    var t, j := s[1..], IndexOf(s[1..], x);
    assert IndexOf(s, x) == j + 1;
    assert s[..j + 1] == [s[0]] + t[..j];
    assert s[j + 2..] == t[j + 1..];
    ConcatAssoc([s[0]], t[..j], t[j + 1..]);
  }

  /** Regrouping a concatenation. Stated once and called where a proof
    * needs it, so the solver does not search for the regrouping itself. */
  lemma ConcatAssoc<T>(a: seq<T>, b: seq<T>, c: seq<T>)
    ensures (a + b) + c == a + (b + c)
  {
  }

  /** In a list without duplicates, removing `s[k]` removes exactly position `k`. */
  lemma RemoveFirstAt<T>(s: seq<T>, k: nat)
    requires NoDup(s) && k < |s|
    ensures RemoveFirst(s, s[k]) == s[..k] + s[k + 1..]
  {
    NoDupNotBefore(s, k);
    IndexOfFirst(s, k);
    RemoveFirstDeletesFirst(s, s[k]);
  }

  /** The search inside `list.remove` finds position `k` when its element does not occur earlier. */
  lemma IndexOfFirst<T>(s: seq<T>, k: nat)
    requires k < |s| && s[k] !in s[..k]
    ensures IndexOf(s, s[k]) == k
  {
    var j := IndexOf(s, s[k]);
    if j < k {
      assert false;
    } else if k < j {
      assert false;
    }
  }

  /** In a list without duplicates, no element occurs before its own position. */
  lemma NoDupNotBefore<T>(s: seq<T>, k: nat)
    requires NoDup(s) && k < |s|
    ensures s[k] !in s[..k]
  {
    forall i | 0 <= i < k
      ensures s[..k][i] != s[k]
    {
      assert s[..k][i] == s[i];
    }
  }

  /** Removing an element just appended to a list that did not hold it
    * gives back the list. */
  lemma RemoveFirstAppended<T>(s: seq<T>, x: T)
    requires x !in s
    ensures RemoveFirst(s + [x], x) == s
  {
    var t := s + [x];
    assert t[|s|] == x && t[..|s|] == s;
    RemoveFirstDeletesFirst(t, x);
    assert x !in t[..|s|];
    assert t[|s| + 1..] == [];
  }

  /** Deleting one position keeps a list free of duplicates. */
  lemma NoDupRemoveAt<T>(s: seq<T>, k: nat)
    requires NoDup(s) && k < |s|
    ensures NoDup(s[..k] + s[k + 1..])
  {
    var t := s[..k] + s[k + 1..];
    forall i, j | 0 <= i < j < |t| ensures t[i] != t[j] {
      var i' := if i < k then i else i + 1;
      var j' := if j < k then j else j + 1;
      assert t[i] == s[i'] && t[j] == s[j'];
    }
  }

  /** Appending a new element keeps a list free of duplicates. */
  lemma NoDupAppend<T>(s: seq<T>, x: T)
    requires NoDup(s) && x !in s
    ensures NoDup(s + [x])
  {
    var t := s + [x];
    forall i, j | 0 <= i < j < |t| ensures t[i] != t[j] {
      if j == |s| {
        assert t[i] == s[i];
      } else {
        assert t[i] == s[i] && t[j] == s[j];
      }
    }
  }

  /** The tail of a list without duplicates has none and lacks the head. */
  lemma NoDupTail<T>(s: seq<T>)
    requires NoDup(s) && |s| > 0
    ensures NoDup(s[1..]) && s[0] !in s[1..]
  {
    var t := s[1..];
    forall i, j | 0 <= i < j < |t| ensures t[i] != t[j] {
      assert t[i] == s[i + 1] && t[j] == s[j + 1];
    }
    forall j | 0 <= j < |t| ensures t[j] != s[0] {
      assert t[j] == s[j + 1];
    }
  }

  /** Every element of a subsequence is an element of the whole. */
  lemma {:induction false} SubseqMembers<T>(a: seq<T>, b: seq<T>)
    requires IsSubseq(a, b)
    ensures forall x :: x in a ==> x in b
    decreases |b|
  {
    if a != [] {
      assert b != [];
      if a[0] == b[0] && IsSubseq(a[1..], b[1..]) {
        SubseqMembers(a[1..], b[1..]);
        assert a == [a[0]] + a[1..];
        assert b == [b[0]] + b[1..];
      } else {
        SubseqMembers(a, b[1..]);
        assert b == [b[0]] + b[1..];
      }
    }
  }

  /** A subsequence of a list without duplicates has none. */
  lemma {:induction false} SubseqNoDup<T>(a: seq<T>, b: seq<T>)
    requires IsSubseq(a, b) && NoDup(b)
    ensures NoDup(a)
    decreases |b|
  {
    if a != [] {
      assert b != [];
      NoDupTail(b);
      if a[0] == b[0] && IsSubseq(a[1..], b[1..]) {
        SubseqNoDup(a[1..], b[1..]);
        SubseqMembers(a[1..], b[1..]);
        forall i, j | 0 <= i < j < |a| ensures a[i] != a[j] {
          if i == 0 {
            assert a[j] == a[1..][j - 1];
            assert a[j] in a[1..];
          } else {
            assert a[i] == a[1..][i - 1] && a[j] == a[1..][j - 1];
          }
        }
      } else {
        SubseqNoDup(a, b[1..]);
      }
    }
  }

  /** Every list is a subsequence of itself. */
  lemma {:induction false} SubseqRefl<T>(s: seq<T>)
    ensures IsSubseq(s, s)
    decreases |s|
  {
    if s != [] {
      SubseqRefl(s[1..]);
    }
  }
}
