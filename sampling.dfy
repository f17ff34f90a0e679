/** The random sampler `getRandomItems`: shuffle the caller's array in place,
    then return the slice `[0, count)` of it, with JavaScript `slice` semantics.

    The random comparator of the source is replaced by an oracle: a sequence of
    choices that drives a Fisher-Yates shuffle. Every permutation of the array is
    reachable by some choice sequence (ShuffleReachesEveryPermutation), so the
    oracle stands for "some permutation", whatever its distribution. */
module Sampling {

  /** The next choice of the random source; a source that has run dry chooses 0. */
  function Head(choices: seq<nat>): nat {
    if choices == [] then 0 else choices[0]
  }

  /** The random source after one choice has been taken. */
  function Tail(choices: seq<nat>): seq<nat> {
    if choices == [] then [] else choices[1..]
  }

  function Swap<T>(s: seq<T>, i: nat, j: nat): (r: seq<T>)
    requires i < |s| && j < |s|
    ensures |r| == |s| && r[i] == s[j] && r[j] == s[i]
  {
    s[i := s[j]][j := s[i]]
  }

  /** Steps i, i+1, ... of the shuffle: step i exchanges position i with a
      position in [i, |s|) picked by the next choice. */
  function ShuffleFrom<T>(s: seq<T>, choices: seq<nat>, i: nat): seq<T>
    requires i <= |s|
    decreases |s| - i
  {
    if i == |s| then s
    else ShuffleFrom(Swap(s, i, i + Head(choices) % (|s| - i)), Tail(choices), i + 1)
  }

  /** The order the shuffle leaves the array in. */
  function Shuffled<T>(s: seq<T>, choices: seq<nat>): seq<T> {
    ShuffleFrom(s, choices, 0)
  }

  /** The end index JavaScript's `slice(0, end)` uses on an array of length `len`:
      a negative `end` counts back from the end of the array. */
  function SliceEnd(len: nat, end: int): (r: nat)
    ensures r <= len
  {
    if end < 0 then (if len + end < 0 then 0 else len + end)
    else if end < len then end
    else len
  }

  /** What `getRandomItems(arr, count)` returns for an array `s`. */
  function Sample<T>(s: seq<T>, count: int, choices: seq<nat>): seq<T> {
    var shuffled := Shuffled(s, choices);
    shuffled[..SliceEnd(|shuffled|, count)]
  }

  lemma SwapIsPermutation<T>(s: seq<T>, i: nat, j: nat)
    requires i < |s| && j < |s|
    ensures multiset(Swap(s, i, j)) == multiset(s)
  {
    var t := s[i := s[j]];
    assert multiset(t) == multiset(s) - multiset{s[i]} + multiset{s[j]};
    assert multiset(t[j := s[i]]) == multiset(t) - multiset{t[j]} + multiset{s[i]};
  }

  lemma {:induction false} ShuffleFromIsPermutation<T>(s: seq<T>, choices: seq<nat>, i: nat)
    requires i <= |s|
    ensures |ShuffleFrom(s, choices, i)| == |s|
    ensures multiset(ShuffleFrom(s, choices, i)) == multiset(s)
    decreases |s| - i
  {
    if i < |s| {
      var j := i + Head(choices) % (|s| - i);
      SwapIsPermutation(s, i, j);
      ShuffleFromIsPermutation(Swap(s, i, j), Tail(choices), i + 1);
    }
  }

  /** The shuffle only reorders: same length, same items with the same multiplicities. */
  lemma ShuffledIsPermutation<T>(s: seq<T>, choices: seq<nat>)
    ensures |Shuffled(s, choices)| == |s|
    ensures multiset(Shuffled(s, choices)) == multiset(s)
  {
    ShuffleFromIsPermutation(s, choices, 0);
  }

  /** The sample is the front of the shuffled array, so it holds no item more
      often than the array does. */
  lemma SampleIsPrefix<T>(s: seq<T>, count: int, choices: seq<nat>)
    ensures |Sample(s, count, choices)| == SliceEnd(|s|, count)
    ensures Sample(s, count, choices) == Shuffled(s, choices)[..|Sample(s, count, choices)|]
    ensures multiset(Sample(s, count, choices)) <= multiset(s)
  {
    var shuffled := Shuffled(s, choices);
    ShuffledIsPermutation(s, choices);
    var e := SliceEnd(|s|, count);
    assert shuffled == shuffled[..e] + shuffled[e..];
    assert multiset(shuffled) == multiset(shuffled[..e]) + multiset(shuffled[e..]);
  }

  lemma {:induction false} ShuffleFromKeepsPrefix<T>(s: seq<T>, choices: seq<nat>, i: nat)
    requires i <= |s|
    ensures |ShuffleFrom(s, choices, i)| == |s|
    ensures ShuffleFrom(s, choices, i)[..i] == s[..i]
    decreases |s| - i
  {
    ShuffleFromIsPermutation(s, choices, i);
    if i < |s| {
      var j := i + Head(choices) % (|s| - i);
      var t := Swap(s, i, j);
      ShuffleFromKeepsPrefix(t, Tail(choices), i + 1);
      assert t[..i] == s[..i];
    }
  }

  /** Swapping the item that belongs at position i into place extends the
      agreeing prefix by one and keeps the suffixes rearrangements of each other. */
  lemma SwapIntoPlace<T>(s: seq<T>, t: seq<T>, i: nat, k: nat)
    requires i + k < |s| == |t|
    requires s[..i] == t[..i] && s[i + k] == t[i]
    requires multiset(s[i..]) == multiset(t[i..])
    ensures Swap(s, i, i + k)[..i + 1] == t[..i + 1]
    ensures multiset(Swap(s, i, i + k)[i + 1..]) == multiset(t[i + 1..])
  {
    var u := Swap(s, i, i + k);
    SwapWithinSuffix(s, i, k);
    assert u[i] == t[i];
    assert u[..i + 1] == t[..i + 1] by {
      assert u[..i + 1] == u[..i] + [u[i]];
      assert t[..i + 1] == t[..i] + [t[i]];
    }
    SwapIsPermutation(s[i..], 0, k);
    DropFirst(u[i..], t[i..]);
    assert u[i..][1..] == u[i + 1..] && t[i..][1..] == t[i + 1..];
  }

  /** Two rearrangements of each other that start with the same item stay
      rearrangements of each other without it. */
  lemma DropFirst<T>(a: seq<T>, b: seq<T>)
    requires a != [] && b != [] && a[0] == b[0]
    requires multiset(a) == multiset(b)
    ensures multiset(a[1..]) == multiset(b[1..])
  {
    assert a == [a[0]] + a[1..];
    assert b == [b[0]] + b[1..];
    assert multiset(a) == multiset{a[0]} + multiset(a[1..]);
    assert multiset(b) == multiset{a[0]} + multiset(b[1..]);
    forall e ensures multiset(a[1..])[e] == multiset(b[1..])[e] {
      assert multiset(a)[e] == multiset{a[0]}[e] + multiset(a[1..])[e];
      assert multiset(b)[e] == multiset{a[0]}[e] + multiset(b[1..])[e];
    }
  }

  /** A swap of positions i and i+k touches neither the prefix before i nor
      anything outside the suffix from i. */
  lemma SwapWithinSuffix<T>(s: seq<T>, i: nat, k: nat)
    requires i + k < |s|
    ensures Swap(s, i, i + k)[..i] == s[..i]
    ensures Swap(s, i, i + k)[i..] == Swap(s[i..], 0, k)
  {
    var u := Swap(s, i, i + k);
    var v := Swap(s[i..], 0, k);
    forall m | 0 <= m < |v| ensures u[i..][m] == v[m] {
      if m != 0 && m != k { assert v[m] == s[i..][m]; }
    }
  }

  lemma SmallRemainder(k: nat, n: nat)
    requires k < n
    ensures k % n == k
  {
  }

  /** Where the item at position `m` of `t` sits in a rearrangement `s` of `t`. */
  lemma IndexOfIn<T>(s: seq<T>, t: seq<T>, m: nat) returns (k: nat)
    requires m < |t| && multiset(s) == multiset(t)
    ensures k < |s| && s[k] == t[m]
  {
    assert t[m] in multiset(t);
    assert t[m] in s;
    k :| 0 <= k < |s| && s[k] == t[m];
  }

  /** Choosing k at step i exchanges positions i and i + k, for any k that
      fits in the remaining suffix. */
  lemma ChooseFirst<T>(s: seq<T>, k: nat, rest: seq<nat>, i: nat)
    requires i + k < |s|
    ensures ShuffleFrom(s, [k] + rest, i) == ShuffleFrom(Swap(s, i, i + k), rest, i + 1)
  {
    var choices := [k] + rest;
    assert Head(choices) == k && Tail(choices) == rest;
    SmallRemainder(k, |s| - i);
  }

  /** From position i on, the shuffle can reach any rearrangement `t` of the
      suffix; the result is the choice sequence that does it. */
  lemma {:induction false} ShuffleFromReaches<T>(s: seq<T>, t: seq<T>, i: nat) returns (choices: seq<nat>)
    requires i <= |s| == |t|
    requires s[..i] == t[..i]
    requires multiset(s[i..]) == multiset(t[i..])
    ensures ShuffleFrom(s, choices, i) == t
    decreases |s| - i
  {
    if i == |s| {
      assert s == s[..i] && t == t[..i];
      choices := [];
    } else {
      var k := IndexOfIn(s[i..], t[i..], 0);
      var u := Swap(s, i, i + k);
      SwapIntoPlace(s, t, i, k);
      var rest := ShuffleFromReaches(u, t, i + 1);
      choices := [k] + rest;
      ChooseFirst(s, k, rest, i);
    }
  }

  /** The oracle is not a restriction: every permutation of the array is the
      outcome of some sequence of choices. */
  lemma ShuffleReachesEveryPermutation<T>(s: seq<T>, t: seq<T>)
    requires multiset(t) == multiset(s)
    ensures exists choices :: Shuffled(s, choices) == t
  {
    assert |t| == |multiset(t)| == |multiset(s)| == |s|;
    assert s[0..] == s && t[0..] == t;
    var choices := ShuffleFromReaches(s, t, 0);
    assert Shuffled(s, choices) == t;
  }

  /** For a count that is not negative: the sample holds min(count, |s|) items,
      none of them drawn more often than it occurs in `s`, and it is the front
      of the shuffled array. */
  lemma SampleOfCount<T>(s: seq<T>, count: int, choices: seq<nat>)
    requires 0 <= count
    ensures |Sample(s, count, choices)| == if count < |s| then count else |s|
    ensures multiset(Sample(s, count, choices)) <= multiset(s)
  {
    SampleIsPrefix(s, count, choices);
  }

  /** A negative count keeps all but the last -count items of the shuffled
      array (JavaScript `slice` semantics); it does not give an empty sample. */
  lemma SampleOfNegativeCount<T>(s: seq<T>, count: int, choices: seq<nat>)
    requires count < 0
    ensures |Sample(s, count, choices)| == if |s| + count < 0 then 0 else |s| + count
    ensures multiset(Sample(s, count, choices)) <= multiset(s)
  {
    SampleIsPrefix(s, count, choices);
  }

  /** A count at least the size of the array returns every item of it. */
  lemma SampleOfLargeCount<T>(s: seq<T>, count: int, choices: seq<nat>)
    requires |s| <= count
    ensures multiset(Sample(s, count, choices)) == multiset(s)
  {
    ShuffledIsPermutation(s, choices);
    assert Shuffled(s, choices)[..|s|] == Shuffled(s, choices);
  }

  /** A single draw can come out as any item of the array. */
  lemma SampleCanPickAny<T>(s: seq<T>, k: nat)
    requires k < |s|
    ensures Sample(s, 1, [k]) == [s[k]]
  {
    var u := Swap(s, 0, k);
    SmallRemainder(k, |s|);
    assert Head([k]) == k && Tail([k]) == [];
    assert Shuffled(s, [k]) == ShuffleFrom(u, [], 1);
    ShuffleFromKeepsPrefix(u, [], 1);
    assert Shuffled(s, [k])[..1] == u[..1] == [s[k]];
  }

  /** `getRandomItems`: `null` stands for an argument that is not an array.
      The array is shuffled in place and stays a permutation of its old
      contents; the result is a prefix of its new contents. */
  method GetRandomItems<T>(arr: array?<T>, count: int, choices: seq<nat>) returns (r: seq<T>)
    modifies arr
    ensures arr == null ==> r == []
    ensures arr != null ==> arr[..] == Shuffled(old(arr[..]), choices)
    ensures arr != null ==> multiset(arr[..]) == multiset(old(arr[..]))
    ensures arr != null ==> r == Sample(old(arr[..]), count, choices)
  {
    if arr == null {
      return [];
    }
    var n := arr.Length;
    var i := 0;
    var rest := choices;
    while i < n
      invariant 0 <= i <= n
      invariant ShuffleFrom(arr[..], rest, i) == Shuffled(old(arr[..]), choices)
    {
      var j := i + Head(rest) % (n - i);
      ghost var before := arr[..];
      arr[i], arr[j] := arr[j], arr[i];
      assert arr[..] == Swap(before, i, j);
      rest := Tail(rest);
      i := i + 1;
    }
    ShuffledIsPermutation(old(arr[..]), choices);
    r := arr[..SliceEnd(n, count)];
  }
}
