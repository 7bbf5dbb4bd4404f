/** Sequence operations the source performs with `Array.prototype.filter`
    and `includes`. */
module Lists {

  /** `s.filter(y => y !== x)`: every occurrence of `x` dropped, the rest in
      their original order. */
  function RemoveAll<T(==)>(s: seq<T>, x: T): (r: seq<T>)
    ensures x !in r
    ensures forall i :: 0 <= i < |r| ==> r[i] in s && r[i] != x
    ensures forall i :: 0 <= i < |s| && s[i] != x ==> s[i] in r
    ensures |r| <= |s|
    ensures x !in s ==> r == s
  {
    if |s| == 0 then []
    else if s[0] == x then RemoveAll(s[1..], x)
    else [s[0]] + RemoveAll(s[1..], x)
  }

  /** Filtering distributes over concatenation; together with the ensures of
      `RemoveAll` on one-element sequences this pins down the order of the
      result: it is `s` with the `x`s cut out and nothing moved. */
  lemma {:induction false} RemoveAllConcat<T>(a: seq<T>, b: seq<T>, x: T)
    ensures RemoveAll(a + b, x) == RemoveAll(a, x) + RemoveAll(b, x)
  {
    if |a| == 0 {
      assert a + b == b;
    } else {
      assert (a + b)[1..] == a[1..] + b;
      RemoveAllConcat(a[1..], b, x);
    }
  }

  /** The element-by-element reading of `RemoveAll`. */
  lemma RemoveAllSingleton<T>(y: T, x: T)
    ensures RemoveAll([y], x) == (if y == x then [] else [y])
  {
  }

  /** Filtering keeps the count of every other value and drops all `x`s. */
  lemma {:induction false} RemoveAllMultiset<T>(s: seq<T>, x: T)
    ensures multiset(RemoveAll(s, x)) == multiset(s)[x := 0]
  {
    if |s| == 0 {
    } else {
      assert s == [s[0]] + s[1..];
      RemoveAllMultiset(s[1..], x);
    }
  }

  /** Appending a value that was absent and then filtering it out gives back
      the original sequence exactly. */
  lemma RemoveAllAfterAppend<T>(s: seq<T>, x: T)
    requires x !in s
    ensures RemoveAll(s + [x], x) == s
  {
    RemoveAllConcat(s, [x], x);
  }
}
