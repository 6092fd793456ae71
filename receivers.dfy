/** The receiver list of a room: a Python list of connection ids, appended to
    on join and shrunk with `list.remove`, which drops the first occurrence only.
    The number of times a connection is listed is `multiset(s)[x]`. */
module ReceiverLists {

  /** `list.remove(x)` for an x that is present. */
  function RemoveFirst<T(==)>(s: seq<T>, x: T): (r: seq<T>)
    requires x in s
    ensures |r| == |s| - 1
  {
    if s[0] == x then s[1..] else [s[0]] + RemoveFirst(s[1..], x)
  }

  /** `list.index(x)`: the position of the first occurrence of x. */
  function FirstIndex<T(==)>(s: seq<T>, x: T): (i: nat)
    requires x in s
    ensures i < |s| && s[i] == x && x !in s[..i]
  {
    if s[0] == x then 0 else 1 + FirstIndex(s[1..], x)
  }

  /** What is removed is the first occurrence: the elements before it are kept
      in order, and so are the elements after it. */
  lemma {:induction false} RemoveFirstAt<T>(s: seq<T>, x: T)
    requires x in s
    ensures RemoveFirst(s, x) == s[..FirstIndex(s, x)] + s[FirstIndex(s, x) + 1..]
  {
    if s[0] != x {
      var t := s[1..];
      var j := FirstIndex(t, x);
      RemoveFirstAt(t, x);
      assert FirstIndex(s, x) == j + 1;
      calc {
        RemoveFirst(s, x);
        [s[0]] + RemoveFirst(t, x);
        [s[0]] + (t[..j] + t[j + 1..]);
        { assert [s[0]] + t[..j] == s[..j + 1]; assert t[j + 1..] == s[j + 2..]; }
        s[..j + 1] + s[j + 2..];
      }
    }
  }

  /** Removing drops exactly one copy of x: every connection's number of
      occurrences is kept, except x's, which falls by one. */
  lemma {:induction false} RemoveFirstCounts<T>(s: seq<T>, x: T)
    requires x in s
    ensures multiset(RemoveFirst(s, x)) == multiset(s) - multiset{x}
  {
    assert s == [s[0]] + s[1..];
    if s[0] != x {
      RemoveFirstCounts(s[1..], x);
    }
  }
}
