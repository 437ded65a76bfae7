/** Deleting records by id, as both slices do with
    `list.filter((x) => x.id !== id)`: the filter and the laws it obeys. */
module Lists {

  /** The elements of `s` whose key is not `k`, in their original order. */
  function Without<T(==)>(s: seq<T>, key: T -> string, k: string): (r: seq<T>)
    ensures |r| <= |s|
    ensures forall i :: 0 <= i < |r| ==> key(r[i]) != k
    ensures forall i :: 0 <= i < |r| ==> r[i] in s
    ensures forall i :: 0 <= i < |s| && key(s[i]) != k ==> s[i] in r
    ensures (forall i :: 0 <= i < |s| ==> key(s[i]) != k) ==> r == s
    ensures (exists i :: 0 <= i < |s| && key(s[i]) == k) ==> |r| < |s|
    decreases |s|
  {
    if s == [] then []
    else if key(s[0]) == k then Without(s[1..], key, k)
    else [s[0]] + Without(s[1..], key, k)
  }

  /** Filtering distributes over concatenation. With the one-element case
      (`[x]` is kept exactly when its key differs) this pins `Without` down
      as the order-preserving filter: the kept elements stay in the order
      they had. */
  lemma {:induction false} WithoutAppend<T>(a: seq<T>, b: seq<T>, key: T -> string, k: string)
    ensures Without(a + b, key, k) == Without(a, key, k) + Without(b, key, k)
    decreases |a|
  {
    if a == [] {
      assert a + b == b;
    } else {
      assert (a + b)[1..] == a[1..] + b;
      WithoutAppend(a[1..], b, key, k);
    }
  }

  /** Filtering a one-element list keeps the element exactly when its key differs. */
  lemma WithoutSingleton<T>(x: T, key: T -> string, k: string)
    ensures Without([x], key, k) == if key(x) == k then [] else [x]
  {
  }

  /** Deleting the same id twice gives what deleting it once gives. */
  lemma WithoutIdempotent<T>(s: seq<T>, key: T -> string, k: string)
    ensures Without(Without(s, key, k), key, k) == Without(s, key, k)
    decreases |s|
  {
  }

  /** Deleting two ids gives the same list in either order. */
  lemma {:induction false} WithoutCommutes<T>(s: seq<T>, key: T -> string, j: string, k: string)
    ensures Without(Without(s, key, j), key, k) == Without(Without(s, key, k), key, j)
    decreases |s|
  {
    if s != [] {
      WithoutCommutes(s[1..], key, j, k);
      var rest := s[1..];
      if key(s[0]) != j {
        assert ([s[0]] + Without(rest, key, j))[1..] == Without(rest, key, j);
      }
      if key(s[0]) != k {
        assert ([s[0]] + Without(rest, key, k))[1..] == Without(rest, key, k);
      }
    }
  }

  /** Appending an element with a fresh key and then deleting that key gives
      back the original list: delete undoes add. */
  lemma AddThenWithout<T>(s: seq<T>, x: T, key: T -> string)
    requires forall i :: 0 <= i < |s| ==> key(s[i]) != key(x)
    ensures Without(s + [x], key, key(x)) == s
  {
    WithoutAppend(s, [x], key, key(x));
    WithoutSingleton(x, key, key(x));
  }
}
