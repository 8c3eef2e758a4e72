/** The library's unstable sort, as the code that calls it may rely on it. */
module Sorting {
  ghost predicate SortedBy<T>(s: seq<T>, key: T -> int) {
    forall i, j :: 0 <= i < j < |s| ==> key(s[i]) <= key(s[j])
  }

  /** Put one more element in its place. */
  function Insert<T>(s: seq<T>, key: T -> int, x: T): (r: seq<T>)
    ensures multiset(r) == multiset(s) + multiset{x}
  {
    if s == [] || key(x) <= key(s[0]) then [x] + s
    else
      assert s == [s[0]] + s[1..];
      [s[0]] + Insert(s[1..], key, x)
  }

  lemma {:induction false} InsertSorts<T>(s: seq<T>, key: T -> int, x: T)
    requires SortedBy(s, key)
    ensures SortedBy(Insert(s, key, x), key)
  {
    if s != [] && key(x) > key(s[0]) {
      var rest := Insert(s[1..], key, x);
      InsertSorts(s[1..], key, x);
      forall i | 0 <= i < |rest| ensures key(s[0]) <= key(rest[i]) {
        assert rest[i] in multiset(rest);
        assert rest[i] == x || rest[i] in s[1..];
      }
    }
  }

  /** Some arrangement of the elements in order of their keys. */
  method SortByKey<T>(s: seq<T>, key: T -> int) returns (r: seq<T>)
    ensures SortedBy(r, key) && multiset(r) == multiset(s)
  {
    r := [];
    for i := 0 to |s|
      invariant SortedBy(r, key) && multiset(r) == multiset(s[..i])
    {
      assert s[..i + 1] == s[..i] + [s[i]];
      InsertSorts(r, key, s[i]);
      r := Insert(r, key, s[i]);
    }
    assert s[..|s|] == s;
  }
}
