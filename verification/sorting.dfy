/** Ordering of lists the way the client and its store order them: the
    store's `order(column, ascending)` and the client's stable
    `Array.prototype.sort` with a numeric comparator. Both are modelled as
    a stable insertion sort on a key; a comparator `(a, b) => k(a) - k(b)`
    is a sort on `k`, and a descending comparator is a sort on `-k`. */
module Sorting {

  /** Lexicographic order on text, the order of ISO `YYYY-MM-DD` dates and
      `created_at` timestamps written in one fixed format. */
  predicate LexLe(a: string, b: string)
    decreases |a|
  {
    |a| == 0 || (|b| > 0 && (a[0] < b[0] || (a[0] == b[0] && LexLe(a[1..], b[1..]))))
  }

  lemma {:induction false} LexLeTotal(a: string, b: string)
    ensures LexLe(a, b) || LexLe(b, a)
    decreases |a|
  {
    if |a| > 0 && |b| > 0 && a[0] == b[0] {
      LexLeTotal(a[1..], b[1..]);
    }
  }

  lemma {:induction false} LexLeTrans(a: string, b: string, c: string)
    requires LexLe(a, b) && LexLe(b, c)
    ensures LexLe(a, c)
    decreases |a|
  {
    if |a| > 0 && a[0] == b[0] && b[0] == c[0] {
      LexLeTrans(a[1..], b[1..], c[1..]);
    }
  }

  /** Non-decreasing in a numeric key. */
  predicate SortedByInt<T>(s: seq<T>, key: T -> int) {
    forall i, j :: 0 <= i < j < |s| ==> key(s[i]) <= key(s[j])
  }

  /** Non-decreasing in a text key. */
  predicate SortedByText<T>(s: seq<T>, key: T -> string) {
    forall i, j :: 0 <= i < j < |s| ==> LexLe(key(s[i]), key(s[j]))
  }

  /** Places `x` before the first element whose key is not smaller, so an
      element inserted first stays ahead of the later ones with its key. */
  function InsertByInt<T>(x: T, s: seq<T>, key: T -> int): (r: seq<T>)
    requires SortedByInt(s, key)
    ensures SortedByInt(r, key)
    ensures multiset(r) == multiset(s) + multiset{x}
    decreases |s|
  {
    if |s| == 0 then [x]
    else if key(x) <= key(s[0]) then [x] + s
    else
      var t := InsertByInt(x, s[1..], key);
      assert s == [s[0]] + s[1..];
      BoundSurvivesPermutation(x, s[1..], t, key, key(s[0]));
      [s[0]] + t
  }

  /** A lower bound that `x` and every element of `s` meet holds for any
      rearrangement of `s` with `x` added. */
  lemma BoundSurvivesPermutation<T>(x: T, s: seq<T>, t: seq<T>, key: T -> int, lo: int)
    requires multiset(t) == multiset(s) + multiset{x} && lo <= key(x)
    requires forall k :: 0 <= k < |s| ==> lo <= key(s[k])
    ensures forall k :: 0 <= k < |t| ==> lo <= key(t[k])
  {
    forall k | 0 <= k < |t| ensures lo <= key(t[k]) {
      assert t[k] in multiset(s) + multiset{x};
      if t[k] != x {
        assert t[k] in s;
      }
    }
  }

  /** A stable sort on a numeric key. */
  function SortByInt<T>(s: seq<T>, key: T -> int): (r: seq<T>)
    ensures SortedByInt(r, key)
    ensures multiset(r) == multiset(s)
    decreases |s|
  {
    if |s| == 0 then []
    else
      assert s == [s[0]] + s[1..];
      InsertByInt(s[0], SortByInt(s[1..], key), key)
  }

  function InsertByText<T>(x: T, s: seq<T>, key: T -> string): (r: seq<T>)
    requires SortedByText(s, key)
    ensures SortedByText(r, key)
    ensures multiset(r) == multiset(s) + multiset{x}
    decreases |s|
  {
    if |s| == 0 then [x]
    else if LexLe(key(x), key(s[0])) then
      assert forall k :: 0 <= k < |s| ==> LexLe(key(x), key(s[k])) by {
        forall k | 0 <= k < |s| ensures LexLe(key(x), key(s[k])) {
          if k > 0 { LexLeTrans(key(x), key(s[0]), key(s[k])); }
        }
      }
      [x] + s
    else
      LexLeTotal(key(x), key(s[0]));
      var t := InsertByText(x, s[1..], key);
      assert s == [s[0]] + s[1..];
      assert forall k :: 0 <= k < |t| ==> LexLe(key(s[0]), key(t[k])) by {
        forall k | 0 <= k < |t| ensures LexLe(key(s[0]), key(t[k])) {
          assert t[k] in multiset(s[1..]) + multiset{x};
          if t[k] != x {
            assert t[k] in s[1..];
          }
        }
      }
      [s[0]] + t
  }

  /** A stable sort on a text key. */
  function SortByText<T>(s: seq<T>, key: T -> string): (r: seq<T>)
    ensures SortedByText(r, key)
    ensures multiset(r) == multiset(s)
    decreases |s|
  {
    if |s| == 0 then []
    else
      assert s == [s[0]] + s[1..];
      InsertByText(s[0], SortByText(s[1..], key), key)
  }
}
