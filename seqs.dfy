/**
 * Sequence operations the store and the forms use: `Array.prototype.map` with a keyed patch,
 * `Array.prototype.filter` on a key, `findIndex` / `find`, and the insertion-ordered
 * de-duplication that `Array.from(new Set(xs))` performs.
 */
module Seqs {
  import opened Wrappers

  /** No value occurs twice. */
  ghost predicate NoDuplicates<T>(xs: seq<T>) {
    forall i, j :: 0 <= i < j < |xs| ==> xs[i] != xs[j]
  }

  /** No key occurs twice. */
  ghost predicate UniqueKeys<T>(xs: seq<T>, key: T -> string) {
    forall i, j :: 0 <= i < j < |xs| ==> key(xs[i]) != key(xs[j])
  }

  /** Some element has the given key. */
  ghost predicate HasKey<T>(xs: seq<T>, key: T -> string, k: string) {
    exists i :: 0 <= i < |xs| && key(xs[i]) == k
  }

  /** The keys of the elements, in order. */
  function Keys<T>(xs: seq<T>, key: T -> string): (r: seq<string>)
    ensures |r| == |xs|
    ensures forall i :: 0 <= i < |xs| ==> r[i] == key(xs[i])
  {
    seq(|xs|, i requires 0 <= i < |xs| => key(xs[i]))
  }

  /**
   * `xs.map(item => key(item) === k ? f(item) : item)`: every element whose key is `k` is
   * replaced by `f` of it, every other element is kept, in place.
   */
  function UpdateWhere<T>(xs: seq<T>, key: T -> string, k: string, f: T -> T): (r: seq<T>)
    ensures |r| == |xs|
    ensures forall i :: 0 <= i < |xs| && key(xs[i]) == k ==> r[i] == f(xs[i])
    ensures forall i :: 0 <= i < |xs| && key(xs[i]) != k ==> r[i] == xs[i]
  {
    if xs == [] then []
    else [if key(xs[0]) == k then f(xs[0]) else xs[0]] + UpdateWhere(xs[1..], key, k, f)
  }

  /** `xs.filter(item => key(item) !== k)`. */
  function RemoveWhere<T>(xs: seq<T>, key: T -> string, k: string): (r: seq<T>)
    ensures |r| <= |xs|
    ensures forall i :: 0 <= i < |r| ==> r[i] in xs && key(r[i]) != k
    ensures forall i :: 0 <= i < |xs| && key(xs[i]) != k ==> xs[i] in r
    ensures !HasKey(xs, key, k) ==> r == xs
  {
    if xs == [] then []
    else if key(xs[0]) == k then RemoveWhere(xs[1..], key, k)
    else [xs[0]] + RemoveWhere(xs[1..], key, k)
  }

  /** Filtering distributes over concatenation: the kept elements stay in their relative order. */
  lemma {:induction false} RemoveWhereConcat<T>(a: seq<T>, b: seq<T>, key: T -> string, k: string)
    ensures RemoveWhere(a + b, key, k) == RemoveWhere(a, key, k) + RemoveWhere(b, key, k)
  {
    if a == [] {
      assert a + b == b;
    } else {
      assert (a + b)[0] == a[0] && (a + b)[1..] == a[1..] + b;
      RemoveWhereConcat(a[1..], b, key, k);
      var tail := RemoveWhere(a[1..], key, k);
      if key(a[0]) != k {
        assert [a[0]] + (tail + RemoveWhere(b, key, k)) == ([a[0]] + tail) + RemoveWhere(b, key, k);
      }
    }
  }

  /** Removing the same key twice removes nothing more. */
  lemma {:induction false} RemoveWhereIdempotent<T>(xs: seq<T>, key: T -> string, k: string)
    ensures RemoveWhere(RemoveWhere(xs, key, k), key, k) == RemoveWhere(xs, key, k)
  {
    var r := RemoveWhere(xs, key, k);
    assert !HasKey(r, key, k) by {
      forall i | 0 <= i < |r| ensures key(r[i]) != k {
      }
    }
  }

  /** A filter keeps keys unique. */
  lemma {:induction false} RemoveWhereKeepsUniqueKeys<T>(xs: seq<T>, key: T -> string, k: string)
    requires UniqueKeys(xs, key)
    ensures UniqueKeys(RemoveWhere(xs, key, k), key)
  {
    if xs != [] {
      var tail := xs[1..];
      assert UniqueKeys(tail, key) by {
        forall i, j | 0 <= i < j < |tail| ensures key(tail[i]) != key(tail[j]) {
          assert tail[i] == xs[i + 1] && tail[j] == xs[j + 1];
        }
      }
      RemoveWhereKeepsUniqueKeys(tail, key, k);
      if key(xs[0]) != k {
        var rest := RemoveWhere(tail, key, k);
        assert !HasKey(rest, key, key(xs[0])) by {
          forall j | 0 <= j < |rest| ensures key(rest[j]) != key(xs[0]) {
            assert rest[j] in tail;
            var m :| 0 <= m < |tail| && tail[m] == rest[j];
            assert tail[m] == xs[m + 1];
          }
        }
        PrependKeepsUniqueKeys(xs[0], rest, key);
      }
    }
  }

  /** Prepending an element whose key is new keeps keys unique. */
  lemma PrependKeepsUniqueKeys<T>(x: T, xs: seq<T>, key: T -> string)
    requires UniqueKeys(xs, key)
    requires !HasKey(xs, key, key(x))
    ensures UniqueKeys([x] + xs, key)
  {
    var r := [x] + xs;
    forall i, j | 0 <= i < j < |r| ensures key(r[i]) != key(r[j]) {
      assert r[j] == xs[j - 1];
      if i > 0 {
        assert r[i] == xs[i - 1];
      }
    }
  }

  /** A keyed update whose patch keeps every key keeps the sequence of keys. */
  lemma KeyPreservingUpdateKeepsKeys<T>(xs: seq<T>, key: T -> string, k: string, f: T -> T)
    requires forall x :: key(f(x)) == key(x)
    ensures Keys(UpdateWhere(xs, key, k, f), key) == Keys(xs, key)
  {
  }

  /** Uniqueness of keys depends on the sequence of keys only. */
  lemma UniqueKeysFromKeys<T>(xs: seq<T>, ys: seq<T>, key: T -> string)
    requires Keys(xs, key) == Keys(ys, key)
    requires UniqueKeys(xs, key)
    ensures UniqueKeys(ys, key)
  {
    forall i, j | 0 <= i < j < |ys| ensures key(ys[i]) != key(ys[j]) {
      assert Keys(xs, key)[i] == key(ys[i]) && Keys(xs, key)[j] == key(ys[j]);
    }
  }

  /** `xs.findIndex(y => y === x)`: the first index of `x`, or -1 when `x` does not occur. */
  function IndexOf<T(==)>(xs: seq<T>, x: T): (r: int)
    ensures r == -1 <==> x !in xs
    ensures r != -1 ==> 0 <= r < |xs| && xs[r] == x && x !in xs[..r]
  {
    if xs == [] then -1
    else if xs[0] == x then 0
    else
      var i := IndexOf(xs[1..], x);
      assert i != -1 ==> xs[..i + 1] == [xs[0]] + xs[1..][..i];
      if i == -1 then -1 else i + 1
  }

  /** In a sequence without duplicates, the index of the element at position `k` is `k`. */
  lemma {:induction false} IndexOfDistinct<T>(xs: seq<T>, k: nat)
    requires NoDuplicates(xs)
    requires k < |xs|
    ensures IndexOf(xs, xs[k]) == k
  {
    if k > 0 {
      assert xs[0] != xs[k];
      assert NoDuplicates(xs[1..]) by {
        forall a, b | 0 <= a < b < |xs[1..]| ensures xs[1..][a] != xs[1..][b] {
          assert xs[1..][a] == xs[a + 1] && xs[1..][b] == xs[b + 1];
        }
      }
      assert xs[1..][k - 1] == xs[k];
      IndexOfDistinct(xs[1..], k - 1);
    }
  }

  /** Where an element first occurs in a concatenation. */
  lemma {:induction false} IndexOfConcat<T>(a: seq<T>, b: seq<T>, x: T)
    ensures x in a ==> IndexOf(a + b, x) == IndexOf(a, x)
    ensures x !in a && x in b ==> IndexOf(a + b, x) == |a| + IndexOf(b, x)
  {
    if a != [] {
      assert (a + b)[1..] == a[1..] + b;
      if a[0] != x {
        IndexOfConcat(a[1..], b, x);
      }
    } else {
      assert a + b == b;
    }
  }

  /** `xs.find(item => key(item) === k)`: the first element with key `k`. */
  function FindByKey<T>(xs: seq<T>, key: T -> string, k: string): (r: Option<T>)
    ensures r.None? <==> !HasKey(xs, key, k)
    ensures r.Some? ==> r.value in xs && key(r.value) == k
    ensures r.Some? && |xs| > 0 && key(xs[0]) == k ==> r.value == xs[0]
  {
    if xs == [] then None
    else if key(xs[0]) == k then Some(xs[0])
    else
      var r := FindByKey(xs[1..], key, k);
      assert HasKey(xs[1..], key, k) ==> HasKey(xs, key, k) by {
        if HasKey(xs[1..], key, k) {
          var i :| 0 <= i < |xs[1..]| && key(xs[1..][i]) == k;
          assert key(xs[i + 1]) == k;
        }
      }
      assert HasKey(xs, key, k) ==> HasKey(xs[1..], key, k) by {
        if HasKey(xs, key, k) {
          var i :| 0 <= i < |xs| && key(xs[i]) == k;
          assert i > 0 && key(xs[1..][i - 1]) == k;
        }
      }
      r
  }

  /** When keys are unique, `find` returns exactly the element at that key's position. */
  lemma FindByKeyUnique<T>(xs: seq<T>, key: T -> string, i: nat)
    requires UniqueKeys(xs, key)
    requires i < |xs|
    ensures FindByKey(xs, key, key(xs[i])) == Some(xs[i])
  {
    if i > 0 {
      assert UniqueKeys(xs[1..], key) by {
        forall a, b | 0 <= a < b < |xs[1..]| ensures key(xs[1..][a]) != key(xs[1..][b]) {
          assert xs[1..][a] == xs[a + 1] && xs[1..][b] == xs[b + 1];
        }
      }
      assert xs[1..][i - 1] == xs[i];
      FindByKeyUnique(xs[1..], key, i - 1);
    }
  }

  /**
   * The first elements of each value of `acc + xs` in order: `acc` (assumed duplicate-free)
   * followed by every element of `xs` not seen before, the way a JavaScript `Set`
   * records insertion order.
   */
  function DedupInto<T(==)>(acc: seq<T>, xs: seq<T>): (r: seq<T>)
    decreases |xs|
  {
    if xs == [] then acc
    else DedupInto(if xs[0] in acc then acc else acc + [xs[0]], xs[1..])
  }

  /** `Array.from(new Set(xs))`. */
  function Dedup<T(==)>(xs: seq<T>): seq<T> {
    DedupInto([], xs)
  }

  /** Every element appears in the order of its first occurrence in `src`. */
  ghost predicate InFirstAppearanceOrder<T>(r: seq<T>, src: seq<T>) {
    forall i, j :: 0 <= i < j < |r| ==> IndexOf(src, r[i]) < IndexOf(src, r[j])
  }

  /** What `DedupInto` guarantees: a duplicate-free extension of `acc` holding exactly the values of `acc + xs`. */
  lemma {:induction false} DedupIntoSpec<T>(acc: seq<T>, xs: seq<T>)
    requires NoDuplicates(acc)
    ensures NoDuplicates(DedupInto(acc, xs))
    ensures |acc| <= |DedupInto(acc, xs)| && DedupInto(acc, xs)[..|acc|] == acc
    ensures forall x :: x in DedupInto(acc, xs) <==> x in acc || x in xs
    decreases |xs|
  {
    if xs != [] {
      var acc' := if xs[0] in acc then acc else acc + [xs[0]];
      assert NoDuplicates(acc') by {
        if xs[0] !in acc {
          forall i, j | 0 <= i < j < |acc'| ensures acc'[i] != acc'[j] {
            if j == |acc| { assert acc'[i] == acc[i]; }
          }
        }
      }
      DedupIntoSpec(acc', xs[1..]);
      var r := DedupInto(acc', xs[1..]);
      assert r[..|acc|] == r[..|acc'|][..|acc|];
      assert forall x :: x in xs <==> x == xs[0] || x in xs[1..];
    }
  }

  /** `DedupInto` keeps the order of first appearance in `acc + xs`, provided `acc` already has it. */
  lemma {:induction false} DedupIntoOrder<T>(acc: seq<T>, xs: seq<T>)
    requires NoDuplicates(acc)
    ensures InFirstAppearanceOrder(DedupInto(acc, xs), acc + xs)
    decreases |xs|
  {
    if xs == [] {
      assert acc + xs == acc;
      DistinctInOwnOrder(acc);
    } else if xs[0] !in acc {
      var acc' := acc + [xs[0]];
      assert NoDuplicates(acc') by {
        forall i, j | 0 <= i < j < |acc'| ensures acc'[i] != acc'[j] {
          if j == |acc| { assert acc'[i] == acc[i]; }
        }
      }
      DedupIntoOrder(acc', xs[1..]);
      assert acc' + xs[1..] == acc + xs;
    } else {
      DedupIntoOrder(acc, xs[1..]);
      DedupIntoSpec(acc, xs[1..]);
      RepeatedHeadKeepsOrder(acc, xs, DedupInto(acc, xs[1..]));
    }
  }

  /** A duplicate-free sequence lists its values in their own order of first appearance. */
  lemma DistinctInOwnOrder<T>(xs: seq<T>)
    requires NoDuplicates(xs)
    ensures InFirstAppearanceOrder(xs, xs)
  {
    forall i, j | 0 <= i < j < |xs| ensures IndexOf(xs, xs[i]) < IndexOf(xs, xs[j]) {
      IndexOfDistinct(xs, i);
      IndexOfDistinct(xs, j);
    }
  }

  /** The order of first appearance is not disturbed by a head of `xs` that `acc` already holds. */
  lemma RepeatedHeadKeepsOrder<T>(acc: seq<T>, xs: seq<T>, r: seq<T>)
    requires xs != [] && xs[0] in acc
    requires forall k :: 0 <= k < |r| ==> r[k] in acc || r[k] in xs[1..]
    requires InFirstAppearanceOrder(r, acc + xs[1..])
    ensures InFirstAppearanceOrder(r, acc + xs)
  {
    forall i, j | 0 <= i < j < |r| ensures IndexOf(acc + xs, r[i]) < IndexOf(acc + xs, r[j]) {
      SkipRepeatedIndex(acc, xs, r[i]);
      SkipRepeatedIndex(acc, xs, r[j]);
    }
  }

  /**
   * Dropping, from `acc + xs`, a head of `xs` that already occurs in `acc` shifts the first
   * index of every later value by exactly one and leaves the others alone.
   */
  lemma SkipRepeatedIndex<T>(acc: seq<T>, xs: seq<T>, y: T)
    requires xs != [] && xs[0] in acc
    requires y in acc || y in xs[1..]
    ensures y in acc ==> IndexOf(acc + xs, y) == IndexOf(acc + xs[1..], y) < |acc|
    ensures y !in acc ==> IndexOf(acc + xs, y) == IndexOf(acc + xs[1..], y) + 1 > |acc|
  {
    IndexOfConcat(acc, xs, y);
    IndexOfConcat(acc, xs[1..], y);
    if y !in acc {
      assert xs[0] != y;
      assert IndexOf(xs, y) == IndexOf(xs[1..], y) + 1;
    }
  }

  /** Splitting the input of `DedupInto`: it is a left fold. */
  lemma {:induction false} DedupIntoConcat<T>(acc: seq<T>, a: seq<T>, b: seq<T>)
    ensures DedupInto(acc, a + b) == DedupInto(DedupInto(acc, a), b)
    decreases |a|
  {
    if a == [] {
      assert a + b == b;
    } else {
      assert (a + b)[0] == a[0] && (a + b)[1..] == a[1..] + b;
      DedupIntoConcat(if a[0] in acc then acc else acc + [a[0]], a[1..], b);
    }
  }

  /** Values already seen add nothing. */
  lemma {:induction false} DedupIntoSeen<T>(acc: seq<T>, xs: seq<T>)
    requires forall x :: x in xs ==> x in acc
    ensures DedupInto(acc, xs) == acc
    decreases |xs|
  {
    if xs != [] {
      assert xs[0] in xs;
      DedupIntoSeen(acc, xs[1..]);
    }
  }

  /** A duplicate-free sequence is its own de-duplication. */
  lemma {:induction false} DedupIntoDistinct<T>(acc: seq<T>, xs: seq<T>)
    requires NoDuplicates(acc + xs)
    ensures DedupInto(acc, xs) == acc + xs
    decreases |xs|
  {
    if xs != [] {
      forall i | 0 <= i < |acc| ensures acc[i] != xs[0] {
        assert (acc + xs)[i] == acc[i] && (acc + xs)[|acc|] == xs[0];
      }
      assert (acc + [xs[0]]) + xs[1..] == acc + xs;
      DedupIntoDistinct(acc + [xs[0]], xs[1..]);
    }
  }
}
