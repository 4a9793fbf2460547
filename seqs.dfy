/**
 * List operations the pages apply to rows they have already fetched:
 * `filter`, `find`, `reduce` sums, and the two dictionary-building loops
 * (a "last write wins" lookup and a "push into a list per key" grouping).
 */
module Seqs {
  import opened Wrappers

  // ---------------------------------------------------------------------
  // Subsequences and filtering
  // ---------------------------------------------------------------------

  /** `r` is `s` with some elements left out and the rest in their original order. */
  ghost predicate SubseqOf<T>(r: seq<T>, s: seq<T>)
    decreases |s|
  {
    r == [] || (s != [] && ((r[0] == s[0] && SubseqOf(r[1..], s[1..])) || SubseqOf(r, s[1..])))
  }

  /** The elements of `s` that satisfy `p`, in order (`Array.prototype.filter`). */
  function Filter<T>(s: seq<T>, p: T -> bool): (r: seq<T>)
    ensures |r| <= |s|
    ensures forall x :: x in r ==> x in s && p(x)
    ensures forall i :: 0 <= i < |s| && p(s[i]) ==> s[i] in r
    ensures SubseqOf(r, s)
  {
    if s == [] then []
    else if p(s[0]) then [s[0]] + Filter(s[1..], p)
    else Filter(s[1..], p)
  }

  /** Filtering distributes over concatenation; with the one-element case this pins Filter down. */
  lemma {:induction false} FilterAppend<T>(a: seq<T>, b: seq<T>, p: T -> bool)
    ensures Filter(a + b, p) == Filter(a, p) + Filter(b, p)
  {
    if a == [] {
      assert a + b == b;
    } else {
      assert (a + b)[1..] == a[1..] + b;
      FilterAppend(a[1..], b, p);
    }
  }

  /** A filter whose test every element passes gives back the whole list. */
  lemma {:induction false} FilterAll<T>(s: seq<T>, p: T -> bool)
    requires forall i :: 0 <= i < |s| ==> p(s[i])
    ensures Filter(s, p) == s
  {
    if s != [] {
      FilterAll(s[1..], p);
    }
  }

  /** Two tests that agree on every element filter alike. */
  lemma {:induction false} FilterSameTest<T>(s: seq<T>, p: T -> bool, q: T -> bool)
    requires forall i :: 0 <= i < |s| ==> p(s[i]) == q(s[i])
    ensures Filter(s, p) == Filter(s, q)
  {
    if s != [] {
      FilterSameTest(s[1..], p, q);
    }
  }

  /** Filtering twice with tests `p` and `q` is one filter with their conjunction. */
  lemma {:induction false} FilterFilter<T>(s: seq<T>, p: T -> bool, q: T -> bool)
    ensures Filter(Filter(s, p), q) == Filter(s, x => p(x) && q(x))
  {
    if s != [] {
      FilterFilter(s[1..], p, q);
    }
  }

  /** Growing a prefix by one element appends that element. */
  lemma TakeSnoc<T>(s: seq<T>, j: nat)
    requires j < |s|
    ensures s[..j + 1] == s[..j] + [s[j]]
  {
  }

  /** A filter that no element passes gives the empty list. */
  lemma {:induction false} FilterNone<T>(s: seq<T>, p: T -> bool)
    requires forall i :: 0 <= i < |s| ==> !p(s[i])
    ensures Filter(s, p) == []
  {
    if s != [] {
      FilterNone(s[1..], p);
    }
  }

  /** The number of elements of `s` that satisfy `p` (`s.filter(p).length`). */
  function Count<T>(s: seq<T>, p: T -> bool): nat
  {
    |Filter(s, p)|
  }

  lemma CountSnoc<T>(s: seq<T>, x: T, p: T -> bool)
    ensures Count(s + [x], p) == Count(s, p) + (if p(x) then 1 else 0)
  {
    FilterAppend(s, [x], p);
  }

  /** Counting by filtering agrees with counting the positions that pass the test. */
  lemma {:induction false} CountIsIndexCount<T>(s: seq<T>, p: T -> bool, positions: set<int>)
    requires forall i :: i in positions <==> 0 <= i < |s| && p(s[i])
    ensures Count(s, p) == |positions|
  {
    if s == [] {
      assert forall i :: i in positions ==> 0 <= i < |s|;
      assert positions == {};
    } else {
      var init, x := s[..|s| - 1], s[|s| - 1];
      assert s == init + [x];
      CountSnoc(init, x, p);
      var before := positions - {|init|};
      CountIsIndexCount(init, p, before);
      if p(x) {
        assert positions == before + {|init|};
      } else {
        assert positions == before;
      }
    }
  }

  /** A weaker test never counts more elements. */
  lemma {:induction false} CountMono<T>(s: seq<T>, p: T -> bool, q: T -> bool)
    requires forall i :: 0 <= i < |s| && p(s[i]) ==> q(s[i])
    ensures Count(s, p) <= Count(s, q)
  {
    if s != [] {
      CountMono(s[1..], p, q);
    }
  }

  /** Every element either passes a test or fails it. */
  lemma {:induction false} CountComplement<T>(s: seq<T>, p: T -> bool)
    ensures Count(s, p) + Count(s, x => !p(x)) == |s|
  {
    if s != [] {
      CountComplement(s[1..], p);
    }
  }

  // ---------------------------------------------------------------------
  // Sums (`reduce((acc, x) => acc + f(x), 0)`, exact arithmetic)
  // ---------------------------------------------------------------------

  function Sum<T>(s: seq<T>, f: T -> real): real
  {
    if s == [] then 0.0 else Sum(s[..|s| - 1], f) + f(s[|s| - 1])
  }

  function SumInt<T>(s: seq<T>, f: T -> int): int
  {
    if s == [] then 0 else SumInt(s[..|s| - 1], f) + f(s[|s| - 1])
  }

  lemma {:induction false} SumAppend<T>(a: seq<T>, b: seq<T>, f: T -> real)
    ensures Sum(a + b, f) == Sum(a, f) + Sum(b, f)
  {
    if b == [] {
      assert a + b == a;
    } else {
      assert (a + b)[..|a + b| - 1] == a + b[..|b| - 1];
      SumAppend(a, b[..|b| - 1], f);
    }
  }

  lemma {:induction false} SumIntAppend<T>(a: seq<T>, b: seq<T>, f: T -> int)
    ensures SumInt(a + b, f) == SumInt(a, f) + SumInt(b, f)
  {
    if b == [] {
      assert a + b == a;
    } else {
      assert (a + b)[..|a + b| - 1] == a + b[..|b| - 1];
      SumIntAppend(a, b[..|b| - 1], f);
    }
  }

  /** A sum of terms that are all at least `lo` is at least |s|·lo. */
  lemma {:induction false} SumAtLeast<T>(s: seq<T>, f: T -> real, lo: real)
    requires forall i :: 0 <= i < |s| ==> lo <= f(s[i])
    ensures |s| as real * lo <= Sum(s, f)
  {
    if s != [] {
      SumAtLeast(s[..|s| - 1], f, lo);
    }
  }

  /** A sum of terms that are all at most `hi` is at most |s|·hi. */
  lemma {:induction false} SumAtMost<T>(s: seq<T>, f: T -> real, hi: real)
    requires forall i :: 0 <= i < |s| ==> f(s[i]) <= hi
    ensures Sum(s, f) <= |s| as real * hi
  {
    if s != [] {
      SumAtMost(s[..|s| - 1], f, hi);
    }
  }

  lemma {:induction false} SumIntNonNegative<T>(s: seq<T>, f: T -> int)
    requires forall i :: 0 <= i < |s| ==> 0 <= f(s[i])
    ensures 0 <= SumInt(s, f)
  {
    if s != [] {
      SumIntNonNegative(s[..|s| - 1], f);
    }
  }

  // ---------------------------------------------------------------------
  // find
  // ---------------------------------------------------------------------

  /** The first element of `s` that satisfies `p` (`Array.prototype.find`). */
  function FindFirst<T>(s: seq<T>, p: T -> bool): (r: Option<T>)
    ensures r.None? <==> forall i :: 0 <= i < |s| ==> !p(s[i])
    ensures r.Some? ==> exists i :: 0 <= i < |s| && s[i] == r.value && p(s[i]) && forall j :: 0 <= j < i ==> !p(s[j])
  {
    if s == [] then None
    else if p(s[0]) then Some(s[0])
    else
      var r := FindFirst(s[1..], p);
      assert r.Some? ==> exists i :: 1 <= i < |s| && s[i] == r.value && p(s[i]) && forall j :: 0 <= j < i ==> !p(s[j]) by {
        if r.Some? {
          var i :| 0 <= i < |s[1..]| && s[1..][i] == r.value && p(s[1..][i]) && forall j :: 0 <= j < i ==> !p(s[1..][j]);
          assert s[i + 1] == r.value && p(s[i + 1]);
          assert forall j :: 0 <= j < i + 1 ==> !p(s[j]) by {
            forall j | 0 <= j < i + 1 ensures !p(s[j]) {
              if j > 0 {
                assert s[j] == s[1..][j - 1];
              }
            }
          }
        }
      }
      r
  }

  // ---------------------------------------------------------------------
  // Last-write-wins lookup tables: `rows.forEach(x => m[key(x)] = val(x))`
  // ---------------------------------------------------------------------

  function Index<T, V>(s: seq<T>, key: T -> string, val: T -> V): map<string, V>
  {
    if s == [] then map[] else Index(s[..|s| - 1], key, val)[key(s[|s| - 1]) := val(s[|s| - 1])]
  }

  /** A key is in the table exactly when some row has it, and then it holds the value of the LAST such row. */
  lemma {:induction false} IndexLastWins<T, V>(s: seq<T>, key: T -> string, val: T -> V, k: string)
    ensures k in Index(s, key, val) <==> exists i :: 0 <= i < |s| && key(s[i]) == k
    ensures k in Index(s, key, val) ==>
      exists i :: 0 <= i < |s| && key(s[i]) == k && Index(s, key, val)[k] == val(s[i])
                  && forall j :: i < j < |s| ==> key(s[j]) != k
  {
    if s != [] {
      var n := |s| - 1;
      var pre := s[..n];
      IndexLastWins(pre, key, val, k);
      assert Index(s, key, val) == Index(pre, key, val)[key(s[n]) := val(s[n])];
      if key(s[n]) == k {
        assert Index(s, key, val)[k] == val(s[n]);
      } else if k in Index(pre, key, val) {
        var i :| 0 <= i < |pre| && key(pre[i]) == k && Index(pre, key, val)[k] == val(pre[i])
                 && forall j :: i < j < |pre| ==> key(pre[j]) != k;
        assert s[i] == pre[i];
        forall j | i < j < |s| ensures key(s[j]) != k {
          if j < n {
            assert s[j] == pre[j];
          }
        }
      } else {
        forall i | 0 <= i < |s| ensures key(s[i]) != k {
          if i < n {
            assert s[i] == pre[i];
          }
        }
      }
    }
  }


  method IndexBy<T, V>(s: seq<T>, key: T -> string, val: T -> V) returns (m: map<string, V>)
    ensures m == Index(s, key, val)
  {
    m := map[];
    var i := 0;
    while i < |s|
      invariant 0 <= i <= |s|
      invariant m == Index(s[..i], key, val)
    {
      assert s[..i + 1][..i] == s[..i];
      m := m[key(s[i]) := val(s[i])];
      i := i + 1;
    }
    assert s[..i] == s;
  }

  // ---------------------------------------------------------------------
  // Grouping: `rows.forEach(x => { if (!m[k]) m[k] = []; m[k].push(v); })`
  // where `entry(x)` is Some((k, v)), and rows with entry None are skipped
  // ---------------------------------------------------------------------

  /** The values, in input order, that the rows of `s` file under key `k`. */
  function ValuesAt<T, V>(s: seq<T>, entry: T -> Option<(string, V)>, k: string): seq<V>
  {
    if s == [] then []
    else
      var e := entry(s[|s| - 1]);
      ValuesAt(s[..|s| - 1], entry, k) + (if e.Some? && e.value.0 == k then [e.value.1] else [])
  }

  /** The keys the rows produce, each once, in order of first appearance: the key order of the object built. */
  function FirstKeys<T, V>(s: seq<T>, entry: T -> Option<(string, V)>): seq<string>
  {
    if s == [] then []
    else
      var ks := FirstKeys(s[..|s| - 1], entry);
      var e := entry(s[|s| - 1]);
      if e.Some? && e.value.0 !in ks then ks + [e.value.0] else ks
  }

  predicate Distinct<K(==)>(ks: seq<K>)
  {
    forall i, j :: 0 <= i < j < |ks| ==> ks[i] != ks[j]
  }

  /** The key list has no repeats and holds exactly the keys that received a value. */
  lemma {:induction false} FirstKeysSpec<T, V>(s: seq<T>, entry: T -> Option<(string, V)>)
    ensures Distinct(FirstKeys(s, entry))
    ensures forall k :: k in FirstKeys(s, entry) <==> ValuesAt(s, entry, k) != []
  {
    if s != [] {
      FirstKeysSpec(s[..|s| - 1], entry);
    }
  }

  method GroupBy<T, V>(s: seq<T>, entry: T -> Option<(string, V)>) returns (m: map<string, seq<V>>, keys: seq<string>)
    ensures forall k :: k in m <==> ValuesAt(s, entry, k) != []
    ensures forall k :: k in m ==> m[k] == ValuesAt(s, entry, k)
    ensures keys == FirstKeys(s, entry)
  {
    m, keys := map[], [];
    var i := 0;
    while i < |s|
      invariant 0 <= i <= |s|
      invariant forall k :: k in m <==> ValuesAt(s[..i], entry, k) != []
      invariant forall k :: k in m ==> m[k] == ValuesAt(s[..i], entry, k)
      invariant keys == FirstKeys(s[..i], entry)
    {
      assert s[..i + 1][..i] == s[..i];
      FirstKeysSpec(s[..i], entry);
      match entry(s[i]) {
        case None =>
        case Some(kv) =>
          if kv.0 !in m {
            m := m[kv.0 := [kv.1]];
            keys := keys + [kv.0];
          } else {
            m := m[kv.0 := m[kv.0] + [kv.1]];
          }
      }
      i := i + 1;
    }
    assert s[..i] == s;
  }

  /** A row whose entry is (k, v) puts v into the group of k. */
  lemma {:induction false} ValuesAtMember<T, V>(s: seq<T>, entry: T -> Option<(string, V)>, i: nat)
    requires i < |s| && entry(s[i]).Some?
    ensures entry(s[i]).value.1 in ValuesAt(s, entry, entry(s[i]).value.0)
  {
    var n := |s| - 1;
    if i < n {
      assert s[..n][i] == s[i];
      ValuesAtMember(s[..n], entry, i);
    }
  }

  /** Every value in the group of k comes from some row whose entry is (k, v). */
  lemma {:induction false} ValuesAtOrigin<T, V>(s: seq<T>, entry: T -> Option<(string, V)>, k: string, v: V)
    requires v in ValuesAt(s, entry, k)
    ensures exists i :: 0 <= i < |s| && entry(s[i]) == Some((k, v))
  {
    var n := |s| - 1;
    var e := entry(s[n]);
    if v in ValuesAt(s[..n], entry, k) {
      ValuesAtOrigin(s[..n], entry, k, v);
      var i :| 0 <= i < |s[..n]| && entry(s[..n][i]) == Some((k, v));
      assert s[..n][i] == s[i];
    } else {
      assert entry(s[n]) == Some((k, v));
    }
  }

  /** The sizes of the groups named by `ks`, added up. */
  function GroupSizes<T, V>(s: seq<T>, entry: T -> Option<(string, V)>, ks: seq<string>): nat
  {
    if ks == [] then 0 else GroupSizes(s, entry, ks[..|ks| - 1]) + |ValuesAt(s, entry, ks[|ks| - 1])|
  }

  lemma {:induction false} GroupSizesSnoc<T, V>(s: seq<T>, x: T, entry: T -> Option<(string, V)>, ks: seq<string>)
    requires Distinct(ks)
    ensures GroupSizes(s + [x], entry, ks)
         == GroupSizes(s, entry, ks) + (if entry(x).Some? && entry(x).value.0 in ks then 1 else 0)
  {
    assert (s + [x])[..|s|] == s;
    if ks != [] {
      var pre := ks[..|ks| - 1];
      GroupSizesSnoc(s, x, entry, pre);
      assert ks == pre + [ks[|ks| - 1]];
    }
  }

  /** Every row with an entry lands in exactly one group: the groups' sizes add up to the number of such rows. */
  lemma {:induction false} GroupsPartition<T, V>(s: seq<T>, entry: T -> Option<(string, V)>)
    ensures GroupSizes(s, entry, FirstKeys(s, entry)) == Count(s, x => entry(x).Some?)
  {
    if s != [] {
      var pre, x := s[..|s| - 1], s[|s| - 1];
      assert s == pre + [x];
      var ks := FirstKeys(pre, entry);
      GroupsPartition(pre, entry);
      FirstKeysSpec(pre, entry);
      GroupSizesSnoc(pre, x, entry, ks);
      CountSnoc(pre, x, x => entry(x).Some?);
      var e := entry(x);
      if e.Some? && e.value.0 !in ks {
        assert FirstKeys(s, entry) == ks + [e.value.0];
        assert ValuesAt(pre, entry, e.value.0) == [];
      }
    }
  }

  /** When every row yields an entry, the groups together hold exactly as many values as there are rows. */
  lemma GroupsCoverAll<T, V>(s: seq<T>, entry: T -> Option<(string, V)>)
    requires forall i :: 0 <= i < |s| ==> entry(s[i]).Some?
    ensures GroupSizes(s, entry, FirstKeys(s, entry)) == |s|
  {
    GroupsPartition(s, entry);
    FilterAll(s, x => entry(x).Some?);
  }
}
