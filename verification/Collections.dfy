/** Joining byte strings, and sums over maps and sets. */
module Collections {

  datatype Option<+T> = None | Some(value: T)

  datatype Result<+T, +E> = Ok(value: T) | Err(error: E)

  /** The concatenation of a sequence of byte strings, built from the right. */
  function Join<T>(parts: seq<seq<T>>): seq<T> {
    if parts == [] then [] else Join(parts[..|parts| - 1]) + parts[|parts| - 1]
  }

  lemma JoinSnoc<T>(parts: seq<seq<T>>, last: seq<T>)
    ensures Join(parts + [last]) == Join(parts) + last
  {
    assert (parts + [last])[..|parts|] == parts;
  }

  lemma {:induction false} JoinAppend<T>(a: seq<seq<T>>, b: seq<seq<T>>)
    ensures Join(a + b) == Join(a) + Join(b)
    decreases |b|
  {
    if b == [] {
      assert a + b == a;
    } else {
      var front := b[..|b| - 1];
      JoinAppend(a, front);
      assert (a + b)[..|a + b| - 1] == a + front;
      assert (Join(a) + Join(front)) + b[|b| - 1] == Join(a) + (Join(front) + b[|b| - 1]);
    }
  }

  lemma JoinCons<T>(head: seq<T>, tail: seq<seq<T>>)
    ensures Join([head] + tail) == head + Join(tail)
  {
    JoinAppend([head], tail);
    JoinSnoc([], head);
    assert [] + [head] == [head];
  }

  lemma JoinPrefix<T>(parts: seq<seq<T>>, n: nat)
    requires n <= |parts|
    ensures Join(parts[..n]) <= Join(parts)
  {
    JoinAppend(parts[..n], parts[n..]);
    assert parts[..n] + parts[n..] == parts;
  }

  predicate SameLengths<T>(a: seq<seq<T>>, b: seq<seq<T>>) {
    |a| == |b| && forall i :: 0 <= i < |a| ==> |b[i]| == |a[i]|
  }

  lemma {:induction false} JoinSameLength<T>(a: seq<seq<T>>, b: seq<seq<T>>)
    requires SameLengths(a, b)
    ensures |Join(a)| == |Join(b)|
  {
    if a != [] {
      JoinSameLength(a[..|a| - 1], b[..|b| - 1]);
    }
  }

  /** Parts of the same lengths join to the same string only if they are the same. */
  lemma {:induction false} JoinIsInjective<T>(a: seq<seq<T>>, b: seq<seq<T>>)
    requires SameLengths(a, b) && Join(a) == Join(b)
    ensures a == b
  {
    if a != [] {
      var n := |a| - 1;
      var x, y := Join(a[..n]), Join(b[..n]);
      JoinSameLength(a[..n], b[..n]);
      assert (x + a[n])[..|x|] == x && (x + a[n])[|x|..] == a[n];
      assert (y + b[n])[..|x|] == y && (y + b[n])[|x|..] == b[n];
      JoinIsInjective(a[..n], b[..n]);
      assert a == a[..n] + [a[n]] && b == b[..n] + [b[n]];
    }
  }

  lemma SuffixStep<T>(s: seq<T>, i: nat)
    requires i < |s|
    ensures s[i..] == [s[i]] + s[i + 1..] && s[i..][0] == s[i] && s[i..][1..] == s[i + 1..]
  {
  }

  /** The sum of `f` over the values of `m`. */
  ghost function MapSum<K, V>(m: map<K, V>, f: V -> nat): nat {
    if m == map[] then 0
    else
      var k :| k in m;
      f(m[k]) + MapSum(m - {k}, f)
  }

  lemma {:induction false} MapSumRemove<K, V>(m: map<K, V>, f: V -> nat, k: K)
    requires k in m
    ensures MapSum(m, f) == f(m[k]) + MapSum(m - {k}, f)
    decreases |m|
  {
    var c :| c in m && MapSum(m, f) == f(m[c]) + MapSum(m - {c}, f);
    if c != k {
      MapSumRemove(m - {c}, f, k);
      MapSumRemove(m - {k}, f, c);
      assert m - {c} - {k} == m - {k} - {c};
    }
  }

  lemma MapSumUpdate<K, V>(m: map<K, V>, f: V -> nat, k: K, v: V)
    ensures MapSum(m[k := v], f) == (if k in m then MapSum(m, f) - f(m[k]) else MapSum(m, f)) + f(v)
  {
    MapSumRemove(m[k := v], f, k);
    assert m[k := v] - {k} == m - {k};
    if k in m {
      MapSumRemove(m, f, k);
    } else {
      assert m - {k} == m;
    }
  }

  lemma MapSumAtLeast<K, V>(m: map<K, V>, f: V -> nat, k: K)
    requires k in m
    ensures f(m[k]) <= MapSum(m, f)
  {
    MapSumRemove(m, f, k);
  }

  /** Some element of a nonempty set. */
  lemma Pick<T>(s: set<T>) returns (x: T)
    requires s != {}
    ensures x in s
  {
    x :| x in s;
  }

  /** A set of naturals below `n` has at most `n` elements. */
  lemma {:induction false} SizeBelow(s: set<int>, n: nat)
    requires forall x :: x in s ==> 0 <= x < n
    ensures |s| <= n
  {
    if n == 0 {
      if s != {} {
        var x := Pick(s);
        assert false;
      }
    } else {
      SizeBelow(s - {n - 1}, n - 1);
      if n - 1 !in s {
        assert s - {n - 1} == s;
      }
    }
  }
}
