/** Sequence operations shared by the processors and the launchers: sums,
    boolean-mask selection (the `array[mask]` indexing of the columnar code),
    Python slicing `s[:n]`, and the dictionary `dict(zip(keys, values))`. */
module Seqs {

  /** Sum of a sequence; the empty sum is 0, as `ak.sum` of an empty list. */
  function Sum(s: seq<int>): int
  {
    if s == [] then 0 else s[0] + Sum(s[1..])
  }

  lemma {:induction false} SumAppend(a: seq<int>, b: seq<int>)
    ensures Sum(a + b) == Sum(a) + Sum(b)
  {
    if a == [] {
      assert a + b == b;
    } else {
      assert (a + b)[1..] == a[1..] + b;
      SumAppend(a[1..], b);
    }
  }

  lemma {:induction false} SumOfZeros(s: seq<int>)
    requires forall i | 0 <= i < |s| :: s[i] == 0
    ensures Sum(s) == 0
  {
    if s != [] {
      SumOfZeros(s[1..]);
    }
  }

  /** The sum of slice-wise differences is the difference of the sums. */
  lemma {:induction false} SumOfDifferences(a: seq<int>, b: seq<int>)
    requires |a| == |b|
    ensures Sum(seq(|a|, i requires 0 <= i < |a| => a[i] - b[i])) == Sum(a) - Sum(b)
  {
    var d := seq(|a|, i requires 0 <= i < |a| => a[i] - b[i]);
    if a != [] {
      SumOfDifferences(a[1..], b[1..]);
      assert d[1..] == seq(|a[1..]|, i requires 0 <= i < |a[1..]| => a[1..][i] - b[1..][i]);
    }
  }

  /** The values `f` gives the entries of `xs`, in order: the weight
      column of a list of histogram fills, say. */
  function Project<T>(xs: seq<T>, f: T -> int): (ys: seq<int>)
    ensures |ys| == |xs| && forall k | 0 <= k < |xs| :: ys[k] == f(xs[k])
  {
    seq(|xs|, k requires 0 <= k < |xs| => f(xs[k]))
  }

  /** Projecting a concatenation and summing adds the two parts' sums. */
  lemma SumProjectAppend<T>(a: seq<T>, b: seq<T>, f: T -> int)
    ensures Sum(Project(a + b, f)) == Sum(Project(a, f)) + Sum(Project(b, f))
  {
    assert Project(a + b, f) == Project(a, f) + Project(b, f);
    SumAppend(Project(a, f), Project(b, f));
  }

  /** Number of `true` entries of a mask. */
  function CountTrue(mask: seq<bool>): nat
  {
    if mask == [] then 0 else (if mask[0] then 1 else 0) + CountTrue(mask[1..])
  }

  /** `xs[mask]`: the entries of `xs` whose mask entry is set, in their order. */
  function Select<T>(xs: seq<T>, mask: seq<bool>): (r: seq<T>)
    requires |mask| == |xs|
    ensures |r| == CountTrue(mask) <= |xs|
    ensures forall x | x in r :: x in xs
  {
    if xs == [] then [] else (if mask[0] then [xs[0]] else []) + Select(xs[1..], mask[1..])
  }

  /** Selection works piecewise: this is what makes it keep the input order. */
  lemma {:induction false} SelectAppend<T>(xs: seq<T>, m: seq<bool>, ys: seq<T>, n: seq<bool>)
    requires |m| == |xs| && |n| == |ys|
    ensures Select(xs + ys, m + n) == Select(xs, m) + Select(ys, n)
  {
    if xs == [] {
      assert xs + ys == ys && m + n == n;
    } else {
      assert (xs + ys)[1..] == xs[1..] + ys;
      assert (m + n)[1..] == m[1..] + n;
      SelectAppend(xs[1..], m[1..], ys, n);
    }
  }

  /** An entry is selected exactly when it sits at a position whose mask entry is set. */
  lemma {:induction false} SelectMember<T>(xs: seq<T>, mask: seq<bool>, x: T)
    requires |mask| == |xs|
    ensures x in Select(xs, mask) <==> exists i | 0 <= i < |xs| :: mask[i] && xs[i] == x
  {
    if xs != [] {
      SelectMember(xs[1..], mask[1..], x);
      if x in Select(xs, mask) {
        if !(mask[0] && xs[0] == x) {
          assert x in Select(xs[1..], mask[1..]);
          var i :| 0 <= i < |xs[1..]| && mask[1..][i] && xs[1..][i] == x;
          assert mask[i + 1] && xs[i + 1] == x;
        }
      }
      if exists i | 0 <= i < |xs| :: mask[i] && xs[i] == x {
        var i :| 0 <= i < |xs| && mask[i] && xs[i] == x;
        if i > 0 {
          assert mask[1..][i - 1] && xs[1..][i - 1] == x;
        }
      }
    }
  }

  lemma {:induction false} SelectNone<T>(xs: seq<T>, mask: seq<bool>)
    requires |mask| == |xs|
    requires forall i | 0 <= i < |mask| :: !mask[i]
    ensures Select(xs, mask) == []
  {
    if xs != [] {
      SelectNone(xs[1..], mask[1..]);
    }
  }

  lemma {:induction false} SelectAll<T>(xs: seq<T>, mask: seq<bool>)
    requires |mask| == |xs|
    requires forall i | 0 <= i < |mask| :: mask[i]
    ensures Select(xs, mask) == xs
  {
    if xs != [] {
      SelectAll(xs[1..], mask[1..]);
      assert xs == [xs[0]] + xs[1..];
    }
  }

  /** Each entry of `s` paired with the same first component `a`. */
  function PairWith<A, B>(a: A, s: seq<B>): (pairs: seq<(A, B)>)
    ensures |pairs| == |s| && forall i | 0 <= i < |s| :: pairs[i] == (a, s[i])
  {
    seq(|s|, i requires 0 <= i < |s| => (a, s[i]))
  }

  /** Python's `s[:n]` for n >= 0: the first n entries, or all of them when
      there are fewer. */
  function Prefix<T>(s: seq<T>, n: nat): (r: seq<T>)
    ensures |r| <= n && |r| <= |s| && r == s[..|r|]
    ensures |r| == n || r == s
  {
    if |s| <= n then s else s[..n]
  }

  /** `dict(zip(ks, vs))`: pairs go in left to right, so a repeated key ends
      up with the value paired with its last occurrence. */
  function ZipToMap<K, V>(ks: seq<K>, vs: seq<V>): (m: map<K, V>)
    requires |ks| == |vs|
    ensures m.Keys == set k | k in ks
  {
    if ks == [] then map[]
    else
      var n := |ks| - 1;
      assert ks == ks[..n] + [ks[n]];
      ZipToMap(ks[..n], vs[..n])[ks[n] := vs[n]]
  }

  /** The value stored for a key is the one paired with its last occurrence. */
  lemma {:induction false} ZipToMapLastWins<K, V>(ks: seq<K>, vs: seq<V>, i: nat)
    requires |ks| == |vs| && i < |ks|
    requires forall j | i < j < |ks| :: ks[j] != ks[i]
    ensures ks[i] in ZipToMap(ks, vs) && ZipToMap(ks, vs)[ks[i]] == vs[i]
  {
    var n := |ks| - 1;
    if i < n {
      ZipToMapLastWins(ks[..n], vs[..n], i);
    }
  }

  /** Every value stored comes from a pair of the input. */
  lemma {:induction false} ZipToMapFrom<K, V>(ks: seq<K>, vs: seq<V>, k: K)
    requires |ks| == |vs| && k in ZipToMap(ks, vs)
    ensures exists i | 0 <= i < |ks| :: ks[i] == k && vs[i] == ZipToMap(ks, vs)[k]
  {
    var n := |ks| - 1;
    if ks[n] != k {
      ZipToMapFrom(ks[..n], vs[..n], k);
      var i :| 0 <= i < n && ks[..n][i] == k && vs[..n][i] == ZipToMap(ks[..n], vs[..n])[k];
      assert ks[i] == k && vs[i] == ZipToMap(ks, vs)[k];
    }
  }

  /** Element-wise sum of two vectors of the same length. */
  function Add(a: seq<int>, b: seq<int>): (c: seq<int>)
    requires |a| == |b|
    ensures |c| == |a| && forall i | 0 <= i < |a| :: c[i] == a[i] + b[i]
  {
    seq(|a|, i requires 0 <= i < |a| => a[i] + b[i])
  }

  predicate Distinct<T(==)>(s: seq<T>)
  {
    forall i, j | 0 <= i < j < |s| :: s[i] != s[j]
  }

  /** The entries of `s` with later repeats dropped: first occurrences, in order. */
  function Dedup<T(==)>(s: seq<T>): (r: seq<T>)
    ensures Distinct(r)
    ensures forall x | x in r :: x in s
    ensures forall x | x in s :: x in r
  {
    if s == [] then []
    else
      var n := |s| - 1;
      assert s == s[..n] + [s[n]];
      Dedup(s[..n]) + (if s[n] in s[..n] then [] else [s[n]])
  }

  // A Python dict, kept as its (key, value) items in insertion order.

  function ItemKeys<K, V>(items: seq<(K, V)>): (ks: seq<K>)
    ensures |ks| == |items| && forall i | 0 <= i < |items| :: ks[i] == items[i].0
  {
    seq(|items|, i requires 0 <= i < |items| => items[i].0)
  }

  /** `d[k] = v`: a key already present keeps its place and takes the new
      value; a new key goes last. */
  function Upsert<K(==), V>(items: seq<(K, V)>, k: K, v: V): seq<(K, V)>
  {
    if items == [] then [(k, v)]
    else if items[0].0 == k then [(k, v)] + items[1..]
    else [items[0]] + Upsert(items[1..], k, v)
  }

  /** Assigning to a key already present leaves the keys as they were. */
  lemma {:induction false} UpsertKeysPresent<K, V>(items: seq<(K, V)>, k: K, v: V)
    requires k in ItemKeys(items)
    ensures ItemKeys(Upsert(items, k, v)) == ItemKeys(items)
  {
    var r := Upsert(items, k, v);
    if items[0].0 == k {
      assert |r| == |items| && forall i | 0 <= i < |r| :: r[i].0 == items[i].0;
    } else {
      var rest := Upsert(items[1..], k, v);
      assert k in ItemKeys(items[1..]) by {
        var i :| 0 <= i < |items| && ItemKeys(items)[i] == k;
        assert ItemKeys(items[1..])[i - 1] == k;
      }
      UpsertKeysPresent(items[1..], k, v);
      assert r == [items[0]] + rest;
      assert |rest| == |items[1..]|;
      assert forall i | 0 <= i < |r| :: r[i].0 == items[i].0 by {
        forall i | 1 <= i < |r| ensures r[i].0 == items[i].0 {
          assert r[i] == rest[i - 1];
          assert ItemKeys(rest)[i - 1] == ItemKeys(items[1..])[i - 1];
        }
      }
    }
  }

  /** The keys after `d[k] = v`: unchanged when k was present, else k added last. */
  lemma UpsertKeys<K, V>(items: seq<(K, V)>, k: K, v: V)
    ensures ItemKeys(Upsert(items, k, v))
      == if k in ItemKeys(items) then ItemKeys(items) else ItemKeys(items) + [k]
  {
    if k in ItemKeys(items) {
      UpsertKeysPresent(items, k, v);
    } else {
      UpsertNew(items, k, v);
    }
  }

  /** A key not yet present is appended with its value. */
  lemma {:induction false} UpsertNew<K, V>(items: seq<(K, V)>, k: K, v: V)
    requires k !in ItemKeys(items)
    ensures Upsert(items, k, v) == items + [(k, v)]
  {
    if items != [] {
      assert ItemKeys(items) == [items[0].0] + ItemKeys(items[1..]);
      UpsertNew(items[1..], k, v);
      assert items == [items[0]] + items[1..];
    }
  }

  /** Assigning to a key already present replaces its value where it stands
      (the first entry with that key, the only one in a dictionary). */
  lemma {:induction false} UpsertExisting<K, V>(items: seq<(K, V)>, i: nat, v: V)
    requires i < |items|
    requires forall j | 0 <= j < i :: items[j].0 != items[i].0
    ensures Upsert(items, items[i].0, v) == items[i := (items[i].0, v)]
  {
    var k := items[i].0;
    if i == 0 {
      assert Upsert(items, k, v) == [(k, v)] + items[1..];
    } else {
      assert items[0].0 != k;
      UpsertExisting(items[1..], i - 1, v);
      assert items[i := (k, v)] == [items[0]] + items[1..][i - 1 := (k, v)];
    }
  }

  /** After `d[k] = v` the key k maps to v and every other pair is kept. */
  lemma {:induction false} UpsertPairs<K, V>(items: seq<(K, V)>, k: K, v: V)
    requires Distinct(ItemKeys(items))
    ensures (k, v) in Upsert(items, k, v)
    ensures forall p | p in Upsert(items, k, v) :: (p.0 == k && p.1 == v) || (p in items && p.0 != k)
    ensures forall p | p in items && p.0 != k :: p in Upsert(items, k, v)
  {
    if items != [] {
      assert ItemKeys(items)[1..] == ItemKeys(items[1..]);
      if items[0].0 == k {
        forall p | p in items[1..] ensures p.0 != k {
          var j :| 0 <= j < |items[1..]| && items[1..][j] == p;
          assert ItemKeys(items)[j + 1] == p.0;
        }
      } else {
        UpsertPairs(items[1..], k, v);
      }
    }
  }

  /** `dict(zip(ks, vs))` as items: one entry per distinct key, in the order
      the keys first occur, with the value of the key's last occurrence. */
  function ZipItems<K(==), V>(ks: seq<K>, vs: seq<V>): (items: seq<(K, V)>)
    requires |ks| == |vs|
    ensures ItemKeys(items) == Dedup(ks)
  {
    if ks == [] then []
    else
      var n := |ks| - 1;
      assert ks == ks[..n] + [ks[n]];
      UpsertKeys(ZipItems(ks[..n], vs[..n]), ks[n], vs[n]);
      Upsert(ZipItems(ks[..n], vs[..n]), ks[n], vs[n])
  }

  /** The ordered items and the dictionary `dict(zip(ks, vs))` hold the same
      pairs. */
  lemma {:induction false} ZipItemsAgree<K, V>(ks: seq<K>, vs: seq<V>)
    requires |ks| == |vs|
    ensures forall p | p in ZipItems(ks, vs) :: p.0 in ZipToMap(ks, vs) && ZipToMap(ks, vs)[p.0] == p.1
    ensures forall k | k in ZipToMap(ks, vs) :: (k, ZipToMap(ks, vs)[k]) in ZipItems(ks, vs)
  {
    if ks != [] {
      var n := |ks| - 1;
      ZipItemsAgree(ks[..n], vs[..n]);
      UpsertPairs(ZipItems(ks[..n], vs[..n]), ks[n], vs[n]);
    }
  }
}
