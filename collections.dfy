/** The two JavaScript collections the application keeps in state: a
    `Set<string>`, as a sequence without repeats in insertion order, and a
    plain object used as a string-keyed record, as a sequence of entries
    with distinct keys in insertion order (the order `JSON.stringify` and
    the spread operator see). */
module Collections {
  import opened Options

  predicate NoDups(xs: seq<string>) {
    forall i, j :: 0 <= i < j < |xs| ==> xs[i] != xs[j]
  }

  /** `new Set(xs)`, listed in insertion order: every element once, at its
      first position. */
  function Dedup(xs: seq<string>): (r: seq<string>)
    ensures NoDups(r)
    ensures forall x :: x in r <==> x in xs
    ensures |r| <= |xs|
  {
    if xs == [] then []
    else
      var d := Dedup(xs[..|xs| - 1]);
      var last := xs[|xs| - 1];
      assert forall x :: x in xs <==> x in xs[..|xs| - 1] || x == last by {
        assert xs == xs[..|xs| - 1] + [last];
      }
      if last in d then d else d + [last]
  }

  /** A sequence without repeats is its own set: reloading a saved set gives
      back the same elements in the same order. */
  lemma {:induction false} DedupNoDups(xs: seq<string>)
    requires NoDups(xs)
    ensures Dedup(xs) == xs
  {
    if xs != [] {
      var init := xs[..|xs| - 1];
      assert NoDups(init) by {
        forall i, j | 0 <= i < j < |init| ensures init[i] != init[j] {
          assert init[i] == xs[i] && init[j] == xs[j];
        }
      }
      DedupNoDups(init);
      var last := xs[|xs| - 1];
      assert last !in init by {
        forall i | 0 <= i < |init| ensures init[i] != last {
          assert init[i] == xs[i];
        }
      }
      assert xs == init + [last];
    }
  }

  /** `set.add(x)` on a set listed in insertion order. */
  function Add(xs: seq<string>, x: string): (r: seq<string>)
    requires NoDups(xs)
    ensures NoDups(r)
    ensures forall y :: y in r <==> y in xs || y == x
    ensures x in xs ==> r == xs
    ensures x !in xs ==> r == xs + [x]
  {
    if x in xs then xs else xs + [x]
  }

  datatype Entry<V> = Entry(key: string, value: V)

  predicate UniqueKeys<V>(r: seq<Entry<V>>) {
    forall i, j :: 0 <= i < j < |r| ==> r[i].key != r[j].key
  }

  function Keys<V>(r: seq<Entry<V>>): set<string> {
    set i | 0 <= i < |r| :: r[i].key
  }

  /** `record[key]`: the value of the first entry with that key, if any. */
  function Lookup<V>(r: seq<Entry<V>>, key: string): (v: Option<V>)
    ensures v.Some? <==> key in Keys(r)
  {
    if r == [] then None
    else if r[0].key == key then Some(r[0].value)
    else
      var v := Lookup(r[1..], key);
      assert Keys(r) == {r[0].key} + Keys(r[1..]) by {
        assert forall i :: 0 < i < |r| ==> r[i] == r[1..][i - 1];
        assert forall i :: 0 <= i < |r[1..]| ==> r[1..][i] == r[i + 1];
      }
      v
  }

  /** `{ ...record, [key]: value }`: an existing key keeps its place and takes
      the new value; a new key is appended. */
  function Put<V>(r: seq<Entry<V>>, key: string, value: V): (r': seq<Entry<V>>)
    ensures |r'| == if key in Keys(r) then |r| else |r| + 1
  {
    if r == [] then [Entry(key, value)]
    else if r[0].key == key then [Entry(key, value)] + r[1..]
    else
      assert Keys(r) == {r[0].key} + Keys(r[1..]) by {
        assert forall i :: 0 < i < |r| ==> r[i] == r[1..][i - 1];
        assert forall i :: 0 <= i < |r[1..]| ==> r[1..][i] == r[i + 1];
      }
      [r[0]] + Put(r[1..], key, value)
  }

  /** After a put, the key gives the new value. */
  lemma {:induction false} LookupPutSame<V>(r: seq<Entry<V>>, key: string, value: V)
    ensures Lookup(Put(r, key, value), key) == Some(value)
  {
    if r != [] && r[0].key != key {
      LookupPutSame(r[1..], key, value);
    }
  }

  /** After a put, every other key gives what it gave before. */
  lemma {:induction false} LookupPutOther<V>(r: seq<Entry<V>>, key: string, value: V, other: string)
    requires other != key
    ensures Lookup(Put(r, key, value), other) == Lookup(r, other)
  {
    if r != [] && r[0].key != key && r[0].key != other {
      LookupPutOther(r[1..], key, value, other);
    }
  }

  /** A put adds its key to the keys and keeps them distinct. */
  lemma {:induction false} PutKeys<V>(r: seq<Entry<V>>, key: string, value: V)
    requires UniqueKeys(r)
    ensures Keys(Put(r, key, value)) == Keys(r) + {key}
    ensures UniqueKeys(Put(r, key, value))
  {
    if r == [] {
      assert Keys(Put(r, key, value)) == {key} by {
        assert Put(r, key, value)[0].key == key;
      }
    } else {
      var t := r[1..];
      assert UniqueKeys(t) by {
        forall i, j | 0 <= i < j < |t| ensures t[i].key != t[j].key {
          assert t[i] == r[i + 1] && t[j] == r[j + 1];
        }
      }
      KeysCons(r);
      if r[0].key == key {
        var p := [Entry(key, value)] + t;
        assert p[1..] == t;
        KeysCons(p);
        assert UniqueKeys(p) by {
          forall i, j | 0 <= i < j < |p| ensures p[i].key != p[j].key {
            if i > 0 { assert p[i] == r[i] && p[j] == r[j]; } else { assert p[j] == r[j]; }
          }
        }
      } else {
        PutKeys(t, key, value);
        var p := [r[0]] + Put(t, key, value);
        assert p[1..] == Put(t, key, value);
        KeysCons(p);
        assert r[0].key !in Keys(t) by {
          forall i | 0 <= i < |t| ensures t[i].key != r[0].key {
            assert t[i] == r[i + 1];
          }
        }
        assert UniqueKeys(p) by {
          forall i, j | 0 <= i < j < |p| ensures p[i].key != p[j].key {
            if i == 0 {
              assert p[j].key in Keys(Put(t, key, value)) by {
                assert p[j] == Put(t, key, value)[j - 1];
              }
            } else {
              assert p[i] == Put(t, key, value)[i - 1] && p[j] == Put(t, key, value)[j - 1];
            }
          }
        }
      }
    }
  }

  /** Putting a key that is not there yet appends it. */
  lemma {:induction false} PutFresh<V>(r: seq<Entry<V>>, key: string, value: V)
    requires key !in Keys(r)
    ensures Put(r, key, value) == r + [Entry(key, value)]
  {
    if r != [] {
      KeysCons(r);
      PutFresh(r[1..], key, value);
      assert [r[0]] + (r[1..] + [Entry(key, value)]) == r + [Entry(key, value)];
    }
  }

  lemma KeysCons<V>(r: seq<Entry<V>>)
    requires r != []
    ensures Keys(r) == {r[0].key} + Keys(r[1..])
  {
    assert forall i :: 0 < i < |r| ==> r[i] == r[1..][i - 1];
    assert forall i :: 0 <= i < |r[1..]| ==> r[1..][i] == r[i + 1];
  }

  /** `xs` is `ys` with some elements deleted and the rest kept in order. */
  predicate IsSubsequence<T(==)>(xs: seq<T>, ys: seq<T>)
    decreases |ys|
  {
    if ys == [] then xs == []
    else (xs != [] && xs[0] == ys[0] && IsSubsequence(xs[1..], ys[1..])) || IsSubsequence(xs, ys[1..])
  }

  /** `xs.filter(keep)`. */
  function Filter<T>(xs: seq<T>, keep: T -> bool): (r: seq<T>)
    ensures |r| <= |xs|
  {
    if xs == [] then [] else (if keep(xs[0]) then [xs[0]] else []) + Filter(xs[1..], keep)
  }

  /** Filtering keeps exactly the elements that pass. */
  lemma {:induction false} FilterMembers<T>(xs: seq<T>, keep: T -> bool, x: T)
    ensures x in Filter(xs, keep) <==> x in xs && keep(x)
  {
    if xs != [] {
      FilterMembers(xs[1..], keep, x);
      assert xs == [xs[0]] + xs[1..];
    }
  }

  /** Filtering keeps every copy of a passing element and no copy of a
      failing one. */
  lemma {:induction false} FilterCount<T>(xs: seq<T>, keep: T -> bool, x: T)
    ensures multiset(Filter(xs, keep))[x] == if keep(x) then multiset(xs)[x] else 0
  {
    if xs != [] {
      var head := if keep(xs[0]) then [xs[0]] else [];
      FilterCount(xs[1..], keep, x);
      assert xs == [xs[0]] + xs[1..];
      assert multiset(xs) == multiset([xs[0]]) + multiset(xs[1..]);
      assert multiset(Filter(xs, keep)) == multiset(head) + multiset(Filter(xs[1..], keep));
    }
  }

  /** Every element of a filtered list passes the filter. */
  lemma {:induction false} FilterPasses<T>(xs: seq<T>, keep: T -> bool)
    ensures forall k :: 0 <= k < |Filter(xs, keep)| ==> keep(Filter(xs, keep)[k])
  {
    if xs != [] {
      FilterPasses(xs[1..], keep);
      var f := Filter(xs[1..], keep);
      var head := if keep(xs[0]) then [xs[0]] else [];
      assert Filter(xs, keep) == head + f;
      assert forall k :: |head| <= k < |head| + |f| ==> (head + f)[k] == f[k - |head|];
    }
  }

  /** Filtering keeps the original order. */
  lemma {:induction false} FilterSubsequence<T>(xs: seq<T>, keep: T -> bool)
    ensures IsSubsequence(Filter(xs, keep), xs)
  {
    if xs != [] {
      FilterSubsequence(xs[1..], keep);
      var f := Filter(xs[1..], keep);
      if keep(xs[0]) {
        assert Filter(xs, keep) == [xs[0]] + f;
        assert ([xs[0]] + f)[1..] == f;
      } else {
        assert Filter(xs, keep) == f;
      }
    }
  }

  /** Filtering twice by the same test is filtering once. */
  lemma {:induction false} FilterIdempotent<T>(xs: seq<T>, keep: T -> bool)
    ensures Filter(Filter(xs, keep), keep) == Filter(xs, keep)
  {
    if xs != [] {
      FilterIdempotent(xs[1..], keep);
      var f := Filter(xs[1..], keep);
      if keep(xs[0]) {
        var g := [xs[0]] + f;
        assert g[0] == xs[0] && g[1..] == f;
        assert Filter(g, keep) == [xs[0]] + Filter(f, keep);
        assert Filter(xs, keep) == g;
      } else {
        assert Filter(xs, keep) == f;
      }
    }
  }

  /** A filter that every element passes changes nothing. */
  lemma {:induction false} FilterAll<T>(xs: seq<T>, keep: T -> bool)
    requires forall k :: 0 <= k < |xs| ==> keep(xs[k])
    ensures Filter(xs, keep) == xs
  {
    if xs != [] {
      assert forall k :: 0 <= k < |xs[1..]| ==> keep(xs[1..][k]) by {
        forall k | 0 <= k < |xs[1..]| ensures keep(xs[1..][k]) {
          assert xs[1..][k] == xs[k + 1];
        }
      }
      FilterAll(xs[1..], keep);
      assert xs == [xs[0]] + xs[1..];
    }
  }

  /** The test that passes exactly what passes both `p` and `q`. */
  function Both<T>(p: T -> bool, q: T -> bool): T -> bool {
    x => p(x) && q(x)
  }

  /** Two filters in a row are one filter by the conjunction. */
  lemma {:induction false} FilterFuse<T>(xs: seq<T>, p: T -> bool, q: T -> bool)
    ensures Filter(Filter(xs, p), q) == Filter(xs, Both(p, q))
  {
    if xs != [] {
      FilterFuse(xs[1..], p, q);
      var f := Filter(xs[1..], p);
      if p(xs[0]) {
        var g := [xs[0]] + f;
        assert g[0] == xs[0] && g[1..] == f;
        assert Filter(g, q) == (if q(xs[0]) then [xs[0]] else []) + Filter(f, q);
      } else {
        assert Filter(xs, p) == f;
      }
      assert Filter(xs, Both(p, q)) == (if Both(p, q)(xs[0]) then [xs[0]] else []) + Filter(xs[1..], Both(p, q));
    }
  }
}
