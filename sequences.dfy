/** Generic sequence operations the source expresses with the array methods
    `filter` and `findIndex`, and the facts about them the model relies on. */
module Sequences {

  /** `s.filter(p)`: the elements of `s` satisfying `p`, in their order. */
  function Filter<T>(s: seq<T>, p: T -> bool): (r: seq<T>)
    ensures |r| <= |s|
    ensures forall i :: 0 <= i < |r| ==> r[i] in s && p(r[i])
    ensures forall i :: 0 <= i < |s| && p(s[i]) ==> s[i] in r
  {
    if s == [] then [] else (if p(s[0]) then [s[0]] else []) + Filter(s[1..], p)
  }

  lemma {:induction false} FilterConcat<T>(a: seq<T>, b: seq<T>, p: T -> bool)
    ensures Filter(a + b, p) == Filter(a, p) + Filter(b, p)
  {
    if a != [] {
      assert (a + b)[0] == a[0];
      assert (a + b)[1..] == a[1..] + b;
      FilterConcat(a[1..], b, p);
    } else {
      assert a + b == b;
    }
  }

  /** Filtering keeps every copy of an element satisfying `p` and no copy of
      any other. */
  lemma {:induction false} FilterMultiset<T>(s: seq<T>, p: T -> bool)
    ensures forall x :: multiset(Filter(s, p))[x] == if p(x) then multiset(s)[x] else 0
  {
    if s != [] {
      FilterMultiset(s[1..], p);
      assert s == [s[0]] + s[1..];
    }
  }

  /** Filtering a sequence whose elements all satisfy `p` changes nothing. */
  lemma {:induction false} FilterAll<T>(s: seq<T>, p: T -> bool)
    requires forall i :: 0 <= i < |s| ==> p(s[i])
    ensures Filter(s, p) == s
  {
    if s != [] {
      FilterAll(s[1..], p);
    }
  }

  /** `a` is `b` with some elements left out, the rest in the same order. */
  ghost predicate IsSubsequence<T>(a: seq<T>, b: seq<T>)
    decreases |b|
  {
    if |b| == 0 then |a| == 0
    else
      (|a| > 0 && a[|a| - 1] == b[|b| - 1] && IsSubsequence(a[..|a| - 1], b[..|b| - 1]))
      || IsSubsequence(a, b[..|b| - 1])
  }

  lemma {:induction false} SubsequenceEmpty<T>(b: seq<T>)
    ensures IsSubsequence([], b)
  {
    if |b| > 0 {
      SubsequenceEmpty(b[..|b| - 1]);
    }
  }

  /** Extending both sides with the same element keeps a subsequence. */
  lemma SubsequenceSnoc<T>(a: seq<T>, b: seq<T>, x: T)
    requires IsSubsequence(a, b)
    ensures IsSubsequence(a + [x], b + [x])
  {
    assert (a + [x])[..|a|] == a;
    assert (b + [x])[..|b|] == b;
  }

  /** Extending only the longer side keeps a subsequence. */
  lemma SubsequenceSkip<T>(a: seq<T>, b: seq<T>, x: T)
    requires IsSubsequence(a, b)
    ensures IsSubsequence(a, b + [x])
  {
    assert (b + [x])[..|b|] == b;
  }

  /** Every element of a subsequence is an element of the whole. */
  lemma {:induction false} SubsequenceElements<T>(a: seq<T>, b: seq<T>)
    requires IsSubsequence(a, b)
    ensures forall i :: 0 <= i < |a| ==> a[i] in b
    decreases |b|
  {
    if |b| > 0 {
      var b' := b[..|b| - 1];
      if |a| > 0 && a[|a| - 1] == b[|b| - 1] && IsSubsequence(a[..|a| - 1], b') {
        var a' := a[..|a| - 1];
        SubsequenceElements(a', b');
        assert a == a' + [a[|a| - 1]];
        assert b == b' + [b[|b| - 1]];
      } else {
        SubsequenceElements(a, b');
        assert b == b' + [b[|b| - 1]];
      }
    }
  }

  /** A subsequence of a sequence that strictly increases under `f` strictly
      increases under `f` too. */
  lemma {:induction false} SubsequenceIncreasing<T>(a: seq<T>, b: seq<T>, f: T -> int)
    requires IsSubsequence(a, b)
    requires forall i, j :: 0 <= i < j < |b| ==> f(b[i]) < f(b[j])
    ensures forall i, j :: 0 <= i < j < |a| ==> f(a[i]) < f(a[j])
    decreases |b|
  {
    if |b| > 0 {
      var b' := b[..|b| - 1];
      assert forall i, j :: 0 <= i < j < |b'| ==> f(b'[i]) < f(b'[j]) by {
        forall i, j | 0 <= i < j < |b'| ensures f(b'[i]) < f(b'[j]) {
          assert b'[i] == b[i] && b'[j] == b[j];
        }
      }
      if |a| > 0 && a[|a| - 1] == b[|b| - 1] && IsSubsequence(a[..|a| - 1], b') {
        var a' := a[..|a| - 1];
        SubsequenceIncreasing(a', b', f);
        SubsequenceElements(a', b');
        forall i, j | 0 <= i < j < |a|
          ensures f(a[i]) < f(a[j])
        {
          assert a[i] == a'[i];
          if j < |a'| {
            assert a[j] == a'[j];
          } else {
            assert a'[i] in b';
            var m :| 0 <= m < |b'| && b'[m] == a'[i];
            assert b[m] == a[i] && b[|b| - 1] == a[j];
          }
        }
      } else {
        SubsequenceIncreasing(a, b', f);
      }
    }
  }

  lemma {:induction false} SubsequenceTrans<T>(a: seq<T>, b: seq<T>, c: seq<T>)
    requires IsSubsequence(a, b) && IsSubsequence(b, c)
    ensures IsSubsequence(a, c)
    decreases |c|
  {
    if |c| == 0 {
    } else {
      var c' := c[..|c| - 1];
      assert c == c' + [c[|c| - 1]];
      if |b| > 0 && b[|b| - 1] == c[|c| - 1] && IsSubsequence(b[..|b| - 1], c') {
        var b' := b[..|b| - 1];
        if |a| > 0 && a[|a| - 1] == b[|b| - 1] && IsSubsequence(a[..|a| - 1], b') {
          SubsequenceTrans(a[..|a| - 1], b', c');
        } else {
          assert b == b' + [b[|b| - 1]];
          assert IsSubsequence(a, b');
          SubsequenceTrans(a, b', c');
        }
      } else {
        SubsequenceTrans(a, b, c');
      }
    }
  }

  /** A subsequence of a sequence with distinct keys has distinct keys. */
  lemma {:induction false} SubsequenceDistinct<T, K>(a: seq<T>, b: seq<T>, key: T -> K)
    requires IsSubsequence(a, b) && DistinctKeys(b, key)
    ensures DistinctKeys(a, key)
    decreases |b|
  {
    if |b| > 0 {
      var b' := b[..|b| - 1];
      assert DistinctKeys(b', key);
      if |a| > 0 && a[|a| - 1] == b[|b| - 1] && IsSubsequence(a[..|a| - 1], b') {
        var a' := a[..|a| - 1];
        SubsequenceDistinct(a', b', key);
        SubsequenceElements(a', b');
        forall i | 0 <= i < |a'| ensures key(a'[i]) != key(b[|b| - 1]) {
          var j :| 0 <= j < |b'| && b'[j] == a'[i];
          assert b[j] == b'[j];
        }
        assert a == a' + [a[|a| - 1]];
      } else {
        SubsequenceDistinct(a, b', key);
      }
    }
  }

  lemma {:induction false} FilterSubsequence<T>(s: seq<T>, p: T -> bool)
    ensures IsSubsequence(Filter(s, p), s)
    decreases |s|
  {
    if s == [] {
      SubsequenceEmpty(s);
    } else {
      var init, x := s[..|s| - 1], s[|s| - 1];
      assert s == init + [x];
      FilterConcat(init, [x], p);
      assert Filter([x], p) == if p(x) then [x] else [] by {
        assert [x][1..] == [];
      }
      FilterSubsequence(init, p);
      if p(x) {
        SubsequenceSnoc(Filter(init, p), init, x);
        assert Filter(s, p) == Filter(init, p) + [x];
      } else {
        SubsequenceSkip(Filter(init, p), init, x);
        assert Filter(s, p) == Filter(init, p);
      }
    }
  }

  /** `s.findIndex(x => key(x) === k)`: the first position whose key is `k`,
      or -1 when there is none. */
  function FindIndex<T, K(==)>(s: seq<T>, key: T -> K, k: K): (r: int)
    ensures -1 <= r < |s|
    ensures 0 <= r ==> key(s[r]) == k
    ensures forall j :: 0 <= j < |s| && (r < 0 || j < r) ==> key(s[j]) != k
  {
    if s == [] then -1
    else if key(s[0]) == k then 0
    else
      var r := FindIndex(s[1..], key, k);
      if r < 0 then -1 else r + 1
  }

  /** `s.filter((x, i, self) => i === self.findIndex(y => key(y) === key(x)))`:
      each element is kept exactly when no earlier element has its key. The
      decision for the element at position i only looks at `s[..i+1]`, so the
      filter is computed from the last element back. */
  function KeepFirst<T, K(==)>(s: seq<T>, key: T -> K): seq<T>
    decreases |s|
  {
    if s == [] then []
    else
      var i := |s| - 1;
      KeepFirst(s[..i], key) + (if FindIndex(s, key, key(s[i])) == i then [s[i]] else [])
  }

  ghost predicate DistinctKeys<T, K>(s: seq<T>, key: T -> K) {
    forall i, j :: 0 <= i < j < |s| ==> key(s[i]) != key(s[j])
  }

  /** The first occurrence of `k` is unchanged by appending an element, once
      `k` already occurs. */
  lemma FindIndexPrefix<T, K>(s: seq<T>, x: T, key: T -> K, k: K)
    requires 0 <= FindIndex(s, key, k)
    ensures FindIndex(s + [x], key, k) == FindIndex(s, key, k)
  {
    var r := FindIndex(s, key, k);
    assert (s + [x])[r] == s[r];
    var r' := FindIndex(s + [x], key, k);
    assert r' >= r;
  }

  lemma {:induction false} KeepFirstSubsequence<T, K>(s: seq<T>, key: T -> K)
    ensures IsSubsequence(KeepFirst(s, key), s)
    decreases |s|
  {
    if s == [] {
      SubsequenceEmpty(s);
    } else {
      var i := |s| - 1;
      KeepFirstSubsequence(s[..i], key);
      assert s == s[..i] + [s[i]];
      if FindIndex(s, key, key(s[i])) == i {
        SubsequenceSnoc(KeepFirst(s[..i], key), s[..i], s[i]);
        assert KeepFirst(s, key) == KeepFirst(s[..i], key) + [s[i]];
      } else {
        SubsequenceSkip(KeepFirst(s[..i], key), s[..i], s[i]);
        assert KeepFirst(s, key) == KeepFirst(s[..i], key);
      }
    }
  }

  /** Every survivor is the first element of the input carrying its key. */
  lemma {:induction false} KeepFirstAreFirst<T, K>(s: seq<T>, key: T -> K)
    ensures forall k :: 0 <= k < |KeepFirst(s, key)| ==>
      var y := KeepFirst(s, key)[k];
      0 <= FindIndex(s, key, key(y)) && s[FindIndex(s, key, key(y))] == y
    decreases |s|
  {
    if s != [] {
      var i := |s| - 1;
      var init, r0 := s[..i], KeepFirst(s[..i], key);
      assert s == init + [s[i]];
      KeepFirstAreFirst(init, key);
      forall k | 0 <= k < |r0|
        ensures 0 <= FindIndex(s, key, key(r0[k])) && s[FindIndex(s, key, key(r0[k]))] == r0[k]
      {
        FindIndexPrefix(init, s[i], key, key(r0[k]));
      }
    }
  }

  /** No two survivors share a key. */
  lemma {:induction false} KeepFirstDistinct<T, K>(s: seq<T>, key: T -> K)
    ensures DistinctKeys(KeepFirst(s, key), key)
    decreases |s|
  {
    if s != [] {
      var i := |s| - 1;
      var init, r0 := s[..i], KeepFirst(s[..i], key);
      KeepFirstDistinct(init, key);
      if FindIndex(s, key, key(s[i])) == i {
        KeepFirstAreFirst(init, key);
        forall k | 0 <= k < |r0| ensures key(r0[k]) != key(s[i]) {
          var j := FindIndex(init, key, key(r0[k]));
          assert init[j] == s[j];
        }
      }
    }
  }

  /** Every element that is the first of its key survives. */
  lemma {:induction false} KeepFirstKeepsFirst<T, K>(s: seq<T>, key: T -> K, i: nat)
    requires i < |s| && FindIndex(s, key, key(s[i])) == i
    ensures s[i] in KeepFirst(s, key)
    decreases |s|
  {
    var n := |s| - 1;
    if i < n {
      var init := s[..n];
      assert s == init + [s[n]];
      assert init[i] == s[i];
      FindIndexPrefix(init, s[n], key, key(s[i]));
      KeepFirstKeepsFirst(init, key, i);
    }
  }

  /** Survivors appear in the order of their keys' first occurrences. */
  lemma {:induction false} KeepFirstOrdered<T, K>(s: seq<T>, key: T -> K)
    ensures forall a, b :: 0 <= a < b < |KeepFirst(s, key)| ==>
      FindIndex(s, key, key(KeepFirst(s, key)[a])) < FindIndex(s, key, key(KeepFirst(s, key)[b]))
    decreases |s|
  {
    if s != [] {
      var n := |s| - 1;
      var init, r0 := s[..n], KeepFirst(s[..n], key);
      assert s == init + [s[n]];
      KeepFirstOrdered(init, key);
      KeepFirstAreFirst(init, key);
      forall k | 0 <= k < |r0|
        ensures FindIndex(s, key, key(r0[k])) == FindIndex(init, key, key(r0[k])) < n
      {
        FindIndexPrefix(init, s[n], key, key(r0[k]));
      }
    }
  }

  /** On an input whose keys are already distinct, nothing is dropped. */
  lemma {:induction false} KeepFirstOfDistinct<T, K>(s: seq<T>, key: T -> K)
    requires DistinctKeys(s, key)
    ensures KeepFirst(s, key) == s
    decreases |s|
  {
    if s != [] {
      var n := |s| - 1;
      var init := s[..n];
      assert s == init + [s[n]];
      KeepFirstOfDistinct(init, key);
      assert FindIndex(s, key, key(s[n])) == n;
    }
  }

  /** Dropping later duplicates twice is the same as dropping them once. */
  lemma KeepFirstIdempotent<T, K>(s: seq<T>, key: T -> K)
    ensures KeepFirst(KeepFirst(s, key), key) == KeepFirst(s, key)
  {
    KeepFirstDistinct(s, key);
    KeepFirstOfDistinct(KeepFirst(s, key), key);
  }
}
