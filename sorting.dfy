/** The stable sorts the mapping calls (`Stream.sorted`, `List.sort`), over a
    string key compared with `String.compareTo`. */
module Sorting {
  import opened Strings

  predicate SortedBy<T>(s: seq<T>, key: T -> string)
  {
    forall i, j :: 0 <= i < j < |s| ==> CompareTo(key(s[i]), key(s[j])) <= 0
  }

  function Insert<T>(x: T, s: seq<T>, key: T -> string): (r: seq<T>)
    requires SortedBy(s, key)
    ensures SortedBy(r, key)
    ensures multiset(r) == multiset(s) + multiset{x}
  {
    if |s| == 0 then [x]
    else if CompareTo(key(x), key(s[0])) <= 0 then
      assert forall j :: 0 <= j < |s| ==> CompareTo(key(x), key(s[j])) <= 0 by {
        forall j | 0 <= j < |s| ensures CompareTo(key(x), key(s[j])) <= 0 {
          if j > 0 { CompareToTransitive(key(x), key(s[0]), key(s[j])); }
        }
      }
      [x] + s
    else
      var rest := Insert(x, s[1..], key);
      assert s == [s[0]] + s[1..];
      assert forall y :: y in rest ==> CompareTo(key(s[0]), key(y)) <= 0 by {
        forall y | y in rest ensures CompareTo(key(s[0]), key(y)) <= 0 {
          assert y in multiset(rest);
          if y == x {
            CompareToAntisymmetric(key(x), key(s[0]));
          } else {
            assert y in multiset(s[1..]);
            var k :| 0 <= k < |s[1..]| && s[1..][k] == y;
            assert s[k + 1] == y;
          }
        }
      }
      assert forall j :: 0 < j < |[s[0]] + rest| ==> ([s[0]] + rest)[j] in rest by {
        forall j | 0 < j < |[s[0]] + rest| ensures ([s[0]] + rest)[j] in rest {
          assert ([s[0]] + rest)[j] == rest[j - 1];
        }
      }
      [s[0]] + rest
  }

  /** Insertion sort: stable, like the JDK's merge sort, so ties keep input order. */
  function Sort<T>(s: seq<T>, key: T -> string): (r: seq<T>)
    ensures SortedBy(r, key)
    ensures multiset(r) == multiset(s)
  {
    if |s| == 0 then []
    else
      assert s == [s[0]] + s[1..];
      Insert(s[0], Sort(s[1..], key), key)
  }
}
