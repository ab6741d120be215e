/** List helpers the extractors share: keeping the first element with each key, taking a
    prefix, and being a subsequence. */
module Lists {
  import opened Text

  /** `a` can be obtained from `b` by deleting elements (order kept). */
  predicate IsSubsequence<T(==)>(a: seq<T>, b: seq<T>)
  {
    if a == [] then true
    else if b == [] then false
    else if a[|a| - 1] == b[|b| - 1] then IsSubsequence(a[..|a| - 1], b[..|b| - 1])
    else IsSubsequence(a, b[..|b| - 1])
  }

  lemma {:induction false} SubsequenceExtend<T>(a: seq<T>, b: seq<T>, x: T)
    requires IsSubsequence(a, b)
    ensures IsSubsequence(a, b + [x])
    decreases |b|, 1
  {
    assert (b + [x])[..|b|] == b;
    if a != [] && a[|a| - 1] == x {
      SubsequenceDropLast(a, b);
    }
  }

  /** Dropping the last element of `a` keeps it a subsequence. */
  lemma {:induction false} SubsequenceDropLast<T>(a: seq<T>, b: seq<T>)
    requires a != [] && IsSubsequence(a, b)
    ensures IsSubsequence(a[..|a| - 1], b)
    decreases |b|, 0
  {
    var a' := a[..|a| - 1];
    if a[|a| - 1] == b[|b| - 1] {
      assert IsSubsequence(a', b[..|b| - 1]);
      if a' != [] && a'[|a'| - 1] != b[|b| - 1] {
        assert IsSubsequence(a', b);
      } else if a' != [] {
        SubsequenceDropLast(a', b[..|b| - 1]);
        SubsequenceExtend(a'[..|a'| - 1], b[..|b| - 1], b[|b| - 1]);
        assert b[..|b| - 1] + [b[|b| - 1]] == b;
      }
    } else {
      SubsequenceDropLast(a, b[..|b| - 1]);
      SubsequenceExtend(a', b[..|b| - 1], b[|b| - 1]);
      assert b[..|b| - 1] + [b[|b| - 1]] == b;
    }
  }

  lemma SubsequenceBoth<T>(a: seq<T>, b: seq<T>, x: T)
    requires IsSubsequence(a, b)
    ensures IsSubsequence(a + [x], b + [x])
  {
    assert (a + [x])[..|a|] == a && (b + [x])[..|b|] == b;
  }

  /** A subsequence's elements all come from the longer sequence. */
  lemma {:induction false} SubsequenceMembers<T>(a: seq<T>, b: seq<T>)
    requires IsSubsequence(a, b)
    ensures forall k :: 0 <= k < |a| ==> a[k] in b
    decreases |b|
  {
    if a != [] {
      var b' := b[..|b| - 1];
      if a[|a| - 1] == b[|b| - 1] {
        SubsequenceMembers(a[..|a| - 1], b');
        forall k | 0 <= k < |a| ensures a[k] in b {
          if k < |a| - 1 {
            assert a[k] == a[..|a| - 1][k];
            assert a[k] in b';
          }
        }
      } else {
        SubsequenceMembers(a, b');
      }
    }
  }

  /** The keys of the elements, in order. */
  function Keys<T, K>(xs: seq<T>, key: T -> K): (r: seq<K>)
    ensures |r| == |xs|
    ensures forall k :: 0 <= k < |xs| ==> r[k] == key(xs[k])
  {
    seq(|xs|, k requires 0 <= k < |xs| => key(xs[k]))
  }

  /** No two elements share a key. */
  predicate DistinctKeys<T, K(==)>(xs: seq<T>, key: T -> K)
  {
    forall i, j :: 0 <= i < j < |xs| ==> key(xs[i]) != key(xs[j])
  }

  /** Distinct keys carry over to a subsequence. */
  lemma {:induction false} DistinctKeysSubsequence<T, K>(a: seq<T>, b: seq<T>, key: T -> K, i: nat, j: nat)
    requires IsSubsequence(a, b) && DistinctKeys(b, key) && i < j < |a|
    ensures key(a[i]) != key(a[j])
    decreases |b|
  {
    var b' := b[..|b| - 1];
    assert DistinctKeys(b', key) by {
      forall x, y | 0 <= x < y < |b'| ensures key(b'[x]) != key(b'[y]) {
        assert b'[x] == b[x] && b'[y] == b[y];
      }
    }
    if a[|a| - 1] == b[|b| - 1] {
      var a' := a[..|a| - 1];
      if j < |a| - 1 {
        DistinctKeysSubsequence(a', b', key, i, j);
        assert a'[i] == a[i] && a'[j] == a[j];
      } else {
        SubsequenceMembers(a', b');
        var x :| 0 <= x < |b'| && b'[x] == a'[i];
        assert b[x] == a[i];
        assert key(b[x]) != key(b[|b| - 1]);
      }
    } else {
      DistinctKeysSubsequence(a, b', key, i, j);
    }
  }

  /** Each element whose key has not been seen before, in order (the first one wins). */
  function DedupBy<T, K(==)>(xs: seq<T>, key: T -> K): (r: seq<T>)
  {
    if xs == [] then []
    else
      var d, last := DedupBy(xs[..|xs| - 1], key), xs[|xs| - 1];
      if key(last) in Keys(d, key) then d else d + [last]
  }

  lemma DedupBySnoc<T, K>(xs: seq<T>, x: T, key: T -> K)
    ensures DedupBy(xs + [x], key)
      == (if key(x) in Keys(DedupBy(xs, key), key) then DedupBy(xs, key) else DedupBy(xs, key) + [x])
  {
    assert (xs + [x])[..|xs|] == xs;
  }

  lemma KeysSnoc<T, K>(xs: seq<T>, x: T, key: T -> K)
    ensures Keys(xs + [x], key) == Keys(xs, key) + [key(x)]
  {
    var a, b := Keys(xs + [x], key), Keys(xs, key) + [key(x)];
    forall k | 0 <= k < |a| ensures a[k] == b[k] {
      if k < |xs| {
        assert (xs + [x])[k] == xs[k];
      }
    }
  }

  /** The loop behind `DedupBy`: an element is kept when its key is not in the set of keys
      seen so far, and its key is then added. */
  method DedupWithSeen<T>(xs: seq<T>, key: T -> string) returns (r: seq<T>)
    ensures r == DedupBy(xs, key)
  {
    r := [];
    var seen: set<string> := {};
    var i := 0;
    while i < |xs|
      invariant i <= |xs|
      invariant r == DedupBy(xs[..i], key)
      invariant forall k :: k in seen <==> k in Keys(r, key)
    {
      var x := xs[i];
      assert xs[..i + 1] == xs[..i] + [x];
      DedupBySnoc(xs[..i], x, key);
      var normalized := key(x);
      if normalized !in seen {
        seen := seen + {normalized};
        KeysSnoc(r, x, key);
        r := r + [x];
      }
      i := i + 1;
    }
    assert xs[..i] == xs;
  }

  /** `xs[i]` is the first element of `xs` with its key. */
  predicate FirstWithKey<T, K(==)>(xs: seq<T>, key: T -> K, i: int)
  {
    0 <= i < |xs| && forall j :: 0 <= j < i ==> key(xs[j]) != key(xs[i])
  }

  /** What `DedupBy` keeps: a subsequence with distinct keys containing every key, each kept
      element the first with its key. */
  lemma DedupByDescribed<T, K>(xs: seq<T>, key: T -> K)
    ensures IsSubsequence(DedupBy(xs, key), xs)
    ensures DistinctKeys(DedupBy(xs, key), key)
    ensures forall i :: 0 <= i < |xs| ==> key(xs[i]) in Keys(DedupBy(xs, key), key)
    ensures forall k :: 0 <= k < |DedupBy(xs, key)| ==>
      exists i :: FirstWithKey(xs, key, i) && xs[i] == DedupBy(xs, key)[k]
  {
    DedupBySubsequence(xs, key);
    DedupByDistinct(xs, key);
    DedupByCovers(xs, key);
    DedupByFirst(xs, key);
  }

  lemma {:induction false} DedupBySubsequence<T, K>(xs: seq<T>, key: T -> K)
    ensures IsSubsequence(DedupBy(xs, key), xs)
  {
    if xs != [] {
      var init, last := xs[..|xs| - 1], xs[|xs| - 1];
      DedupBySubsequence(init, key);
      assert xs == init + [last];
      if key(last) in Keys(DedupBy(init, key), key) {
        SubsequenceExtend(DedupBy(init, key), init, last);
      } else {
        SubsequenceBoth(DedupBy(init, key), init, last);
      }
    }
  }

  lemma {:induction false} DedupByDistinct<T, K>(xs: seq<T>, key: T -> K)
    ensures DistinctKeys(DedupBy(xs, key), key)
  {
    if xs != [] {
      var init, last := xs[..|xs| - 1], xs[|xs| - 1];
      var d := DedupBy(init, key);
      DedupByDistinct(init, key);
      if key(last) !in Keys(d, key) {
        var r := d + [last];
        forall i, j | 0 <= i < j < |r| ensures key(r[i]) != key(r[j]) {
          if j == |d| {
            assert key(r[i]) == Keys(d, key)[i];
          }
        }
      }
    }
  }

  lemma {:induction false} DedupByCovers<T, K>(xs: seq<T>, key: T -> K)
    ensures forall i :: 0 <= i < |xs| ==> key(xs[i]) in Keys(DedupBy(xs, key), key)
  {
    if xs != [] {
      var init, last := xs[..|xs| - 1], xs[|xs| - 1];
      var d := DedupBy(init, key);
      DedupByCovers(init, key);
      var r := DedupBy(xs, key);
      assert d == r[..|d|];
      forall i | 0 <= i < |xs| ensures key(xs[i]) in Keys(r, key) {
        if i < |init| {
          assert xs[i] == init[i];
          var k :| 0 <= k < |d| && Keys(d, key)[k] == key(init[i]);
          assert Keys(r, key)[k] == key(xs[i]);
        } else if key(last) in Keys(d, key) {
          var k :| 0 <= k < |d| && Keys(d, key)[k] == key(last);
          assert Keys(r, key)[k] == key(xs[i]);
        } else {
          assert Keys(r, key)[|d|] == key(xs[i]);
        }
      }
    }
  }

  lemma FirstWithKeySnoc<T, K>(xs: seq<T>, key: T -> K, i: int, x: T)
    requires FirstWithKey(xs, key, i)
    ensures FirstWithKey(xs + [x], key, i) && (xs + [x])[i] == xs[i]
  {
    forall j | 0 <= j < i ensures key((xs + [x])[j]) != key((xs + [x])[i]) {
      assert (xs + [x])[j] == xs[j];
    }
  }

  lemma FirstWithKeyLast<T, K>(xs: seq<T>, key: T -> K, x: T)
    requires forall i :: 0 <= i < |xs| ==> key(xs[i]) != key(x)
    ensures FirstWithKey(xs + [x], key, |xs|) && (xs + [x])[|xs|] == x
  {
    forall j | 0 <= j < |xs| ensures key((xs + [x])[j]) != key((xs + [x])[|xs|]) {
      assert (xs + [x])[j] == xs[j];
    }
  }

  lemma {:induction false} DedupByFirst<T, K>(xs: seq<T>, key: T -> K)
    ensures forall k :: 0 <= k < |DedupBy(xs, key)| ==>
      exists i :: FirstWithKey(xs, key, i) && xs[i] == DedupBy(xs, key)[k]
  {
    if xs != [] {
      var init, last := xs[..|xs| - 1], xs[|xs| - 1];
      var d := DedupBy(init, key);
      DedupByFirst(init, key);
      assert xs == init + [last];
      var r := DedupBy(xs, key);
      assert r == if key(last) in Keys(d, key) then d else d + [last];
      forall k | 0 <= k < |r| ensures exists i :: FirstWithKey(xs, key, i) && xs[i] == r[k] {
        if k < |d| {
          var i :| FirstWithKey(init, key, i) && init[i] == d[k];
          FirstWithKeySnoc(init, key, i, last);
          assert r[k] == d[k];
        } else {
          DedupByCovers(init, key);
          forall i | 0 <= i < |init| ensures key(init[i]) != key(last) {
            assert key(init[i]) in Keys(d, key);
          }
          FirstWithKeyLast(init, key, last);
          assert r[k] == last;
        }
      }
    } else {
      assert DedupBy(xs, key) == [];
    }
  }

  /** `xs.slice(0, n)`. */
  function Take<T>(xs: seq<T>, n: nat): (r: seq<T>)
    ensures |r| <= n && |r| <= |xs|
    ensures |xs| <= n ==> r == xs
    ensures r == xs[..|r|]
  {
    if |xs| <= n then xs else xs[..n]
  }

  lemma PrefixIsSubsequence<T>(xs: seq<T>, n: nat)
    requires n <= |xs|
    ensures IsSubsequence(xs[..n], xs)
    decreases |xs| - n
  {
    if n < |xs| {
      PrefixIsSubsequence(xs[..|xs| - 1], n);
      assert xs[..|xs| - 1][..n] == xs[..n];
      SubsequenceExtend(xs[..n], xs[..|xs| - 1], xs[|xs| - 1]);
      assert xs[..|xs| - 1] + [xs[|xs| - 1]] == xs;
    } else {
      SubsequenceRefl(xs);
      assert xs[..n] == xs;
    }
  }

  /** A prefix of a subsequence is a subsequence. */
  lemma {:induction false} SubsequencePrefix<T>(a: seq<T>, b: seq<T>, n: nat)
    requires n <= |a| && IsSubsequence(a, b)
    ensures IsSubsequence(a[..n], b)
    decreases |a| - n
  {
    if n < |a| {
      SubsequenceDropLast(a, b);
      SubsequencePrefix(a[..|a| - 1], b, n);
      assert a[..|a| - 1][..n] == a[..n];
    } else {
      assert a[..n] == a;
    }
  }

  lemma {:induction false} SubsequenceRefl<T>(xs: seq<T>)
    ensures IsSubsequence(xs, xs)
  {
    if xs != [] {
      SubsequenceRefl(xs[..|xs| - 1]);
    }
  }

  /** `xs.filter(keep)`. */
  function Select<T>(xs: seq<T>, keep: T -> bool): (r: seq<T>)
    ensures |r| <= |xs|
    ensures forall k :: 0 <= k < |r| ==> keep(r[k])
  {
    if xs == [] then []
    else Select(xs[..|xs| - 1], keep) + (if keep(xs[|xs| - 1]) then [xs[|xs| - 1]] else [])
  }

  lemma SelectSnoc<T>(xs: seq<T>, x: T, keep: T -> bool)
    ensures Select(xs + [x], keep) == Select(xs, keep) + (if keep(x) then [x] else [])
  {
    assert (xs + [x])[..|xs|] == xs;
  }

  /** One more element of `xs` scanned. */
  lemma SelectPrefixSnoc<T>(xs: seq<T>, j: nat, keep: T -> bool)
    requires j < |xs|
    ensures Select(xs[..j + 1], keep) == Select(xs[..j], keep) + (if keep(xs[j]) then [xs[j]] else [])
  {
    assert xs[..j + 1][..j] == xs[..j];
  }

  /** What `filter` keeps: exactly the elements that pass, in order. */
  lemma {:induction false} SelectDescribed<T>(xs: seq<T>, keep: T -> bool)
    ensures IsSubsequence(Select(xs, keep), xs)
    ensures forall k :: 0 <= k < |xs| && keep(xs[k]) ==> xs[k] in Select(xs, keep)
  {
    if xs == [] {
      assert Select(xs, keep) == [];
    } else {
      var init, last := xs[..|xs| - 1], xs[|xs| - 1];
      SelectDescribed(init, keep);
      assert xs == init + [last];
      assert Select(xs, keep) == Select(init, keep) + (if keep(last) then [last] else []);
      if keep(last) {
        SubsequenceBoth(Select(init, keep), init, last);

      } else {
        SubsequenceExtend(Select(init, keep), init, last);
        assert Select(xs, keep) == Select(init, keep);
      }
      forall k | 0 <= k < |xs| && keep(xs[k]) ensures xs[k] in Select(xs, keep) {
        if k < |init| {
          assert xs[k] == init[k];
        }
      }
    }
  }

  /** `filter` keeps everything when everything passes. */
  lemma {:induction false} SelectAll<T>(xs: seq<T>, keep: T -> bool)
    requires forall k :: 0 <= k < |xs| ==> keep(xs[k])
    ensures Select(xs, keep) == xs
  {
    if xs != [] {
      SelectAll(xs[..|xs| - 1], keep);
      assert xs == xs[..|xs| - 1] + [xs[|xs| - 1]];
    }
  }

  /** `filter` keeps nothing when nothing passes. */
  lemma {:induction false} SelectNone<T>(xs: seq<T>, keep: T -> bool)
    requires forall k :: 0 <= k < |xs| ==> !keep(xs[k])
    ensures Select(xs, keep) == []
  {
    if xs != [] {
      SelectNone(xs[..|xs| - 1], keep);
    }
  }

  /** `f` of each element that passes `keep`, in order. */
  function Picked<T, U>(xs: seq<T>, keep: T -> bool, f: T -> U): (r: seq<U>)
    ensures |r| <= |xs|
  {
    if xs == [] then []
    else Picked(xs[..|xs| - 1], keep, f) + (if keep(xs[|xs| - 1]) then [f(xs[|xs| - 1])] else [])
  }

  lemma PickedSnoc<T, U>(xs: seq<T>, x: T, keep: T -> bool, f: T -> U)
    ensures Picked(xs + [x], keep, f) == Picked(xs, keep, f) + (if keep(x) then [f(x)] else [])
  {
    assert (xs + [x])[..|xs|] == xs;
  }

  /** One more element of `xs` scanned. */
  lemma PickedPrefixSnoc<T, U>(xs: seq<T>, j: nat, keep: T -> bool, f: T -> U)
    requires j < |xs|
    ensures Picked(xs[..j + 1], keep, f) == Picked(xs[..j], keep, f) + (if keep(xs[j]) then [f(xs[j])] else [])
  {
    assert xs[..j + 1][..j] == xs[..j];
  }

  /** Every element picked is `f` of an element that passes, and `f` of every element that
      passes is picked. */
  lemma {:induction false} PickedDescribed<T, U>(xs: seq<T>, keep: T -> bool, f: T -> U)
    ensures forall k :: 0 <= k < |Picked(xs, keep, f)| ==>
      exists j :: 0 <= j < |xs| && keep(xs[j]) && Picked(xs, keep, f)[k] == f(xs[j])
    ensures forall j :: 0 <= j < |xs| && keep(xs[j]) ==> f(xs[j]) in Picked(xs, keep, f)
  {
    if xs != [] {
      var init, last := xs[..|xs| - 1], xs[|xs| - 1];
      PickedDescribed(init, keep, f);
      var r, r0 := Picked(xs, keep, f), Picked(init, keep, f);
      assert r == r0 + (if keep(last) then [f(last)] else []);
      forall k | 0 <= k < |r| ensures exists j :: 0 <= j < |xs| && keep(xs[j]) && r[k] == f(xs[j]) {
        if k < |r0| {
          assert r[k] == r0[k];
          var j :| 0 <= j < |init| && keep(init[j]) && r0[k] == f(init[j]);
          assert xs[j] == init[j];
        } else {
          assert keep(xs[|xs| - 1]) && r[k] == f(xs[|xs| - 1]);
        }
      }
      forall j | 0 <= j < |xs| && keep(xs[j]) ensures f(xs[j]) in r {
        if j < |init| {
          assert xs[j] == init[j];
          var k :| 0 <= k < |r0| && r0[k] == f(init[j]);
          assert r[k] == r0[k];
        } else {
          assert r[|r0|] == f(last);
        }
      }
    } else {
      assert Picked(xs, keep, f) == [];
    }
  }

  /** `xs.map(f)`. */
  function Mapped<T, U>(xs: seq<T>, f: T -> U): (r: seq<U>)
    ensures |r| == |xs| && forall k :: 0 <= k < |xs| ==> r[k] == f(xs[k])
  {
    seq(|xs|, k requires 0 <= k < |xs| => f(xs[k]))
  }

  lemma MappedSnoc<T, U>(xs: seq<T>, i: nat, f: T -> U)
    requires i < |xs|
    ensures Mapped(xs[..i + 1], f) == Mapped(xs[..i], f) + [f(xs[i])]
  {
    var a, b := Mapped(xs[..i + 1], f), Mapped(xs[..i], f) + [f(xs[i])];
    forall k | 0 <= k < |a| ensures a[k] == b[k] {
      if k < i {
        assert a[k] == f(xs[k]) == b[k];
      }
    }
  }

  /** What is picked keeps the order of `xs`: it is a subsequence of `f` of every element. */
  lemma {:induction false} PickedSubsequence<T, U>(xs: seq<T>, keep: T -> bool, f: T -> U)
    ensures IsSubsequence(Picked(xs, keep, f), Mapped(xs, f))
  {
    if xs == [] {
      assert Picked(xs, keep, f) == [];
    } else {
      var init, last := xs[..|xs| - 1], xs[|xs| - 1];
      PickedSubsequence(init, keep, f);
      MappedSnoc(xs, |xs| - 1, f);
      assert xs[..|xs|] == xs;
      assert Picked(xs, keep, f) == Picked(init, keep, f) + (if keep(last) then [f(last)] else []);
      assert Mapped(xs, f) == Mapped(init, f) + [f(last)];
      if keep(last) {
        SubsequenceBoth(Picked(init, keep, f), Mapped(init, f), f(last));
      } else {
        assert Picked(xs, keep, f) == Picked(init, keep, f);
        SubsequenceExtend(Picked(init, keep, f), Mapped(init, f), f(last));
      }
    }
  }

  /** The first `n` picked: at most `n`, in the order of `xs`, each `f` of an element that
      passes; when fewer than `n`, `f` of every element that passes. */
  lemma TakePickedDescribed<T, U>(xs: seq<T>, keep: T -> bool, f: T -> U, n: nat)
    ensures |Take(Picked(xs, keep, f), n)| <= n
    ensures IsSubsequence(Take(Picked(xs, keep, f), n), Mapped(xs, f))
    ensures forall k :: 0 <= k < |Take(Picked(xs, keep, f), n)| ==>
      exists j :: 0 <= j < |xs| && keep(xs[j]) && Take(Picked(xs, keep, f), n)[k] == f(xs[j])
    ensures |Take(Picked(xs, keep, f), n)| < n ==>
      forall j :: 0 <= j < |xs| && keep(xs[j]) ==> f(xs[j]) in Take(Picked(xs, keep, f), n)
  {
    var picked := Picked(xs, keep, f);
    var r := Take(picked, n);
    PickedDescribed(xs, keep, f);
    PickedSubsequence(xs, keep, f);
    SubsequencePrefix(picked, Mapped(xs, f), |r|);
    forall k | 0 <= k < |r| ensures exists j :: 0 <= j < |xs| && keep(xs[j]) && r[k] == f(xs[j]) {
      assert r[k] == picked[k];
    }
    if |r| < n {
      assert r == picked;
    }
  }

  /** The first `f(xs[i])` with a value, trying `i = k, k + 1, ...`: a loop that stops at
      the first success. */
  function FirstSome<T, U>(xs: seq<T>, f: T -> Option<U>, k: nat): Option<U>
    decreases |xs| - k
  {
    if k >= |xs| then None
    else
      match f(xs[k])
      case Some(u) => Some(u)
      case None => FirstSome(xs, f, k + 1)
  }

  /** Nothing is found exactly when every try from `k` on fails; otherwise what is found is
      the value of the earliest try that succeeds. */
  lemma {:induction false} FirstSomeDescribed<T, U>(xs: seq<T>, f: T -> Option<U>, k: nat)
    decreases |xs| - k
    ensures (forall i :: k <= i < |xs| ==> f(xs[i]).None?) <==> FirstSome(xs, f, k).None?
    ensures forall j :: k <= j < |xs| && f(xs[j]).Some? && (forall i :: k <= i < j ==> f(xs[i]).None?) ==>
      FirstSome(xs, f, k) == f(xs[j])
  {
    if k < |xs| {
      FirstSomeDescribed(xs, f, k + 1);
      assert FirstSome(xs, f, k).None? <==> f(xs[k]).None? && FirstSome(xs, f, k + 1).None?;
      assert (forall i :: k <= i < |xs| ==> f(xs[i]).None?)
        <==> f(xs[k]).None? && forall i :: k + 1 <= i < |xs| ==> f(xs[i]).None?;
      forall j | k <= j < |xs| && f(xs[j]).Some? && (forall i :: k <= i < j ==> f(xs[i]).None?)
        ensures FirstSome(xs, f, k) == f(xs[j])
      {
        if j > k {
          assert f(xs[k]).None?;
        }
      }
    }
  }
}
