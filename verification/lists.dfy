/** The Python list and dict idioms the modelled code relies on: list.index, list.remove, and
    the loop that looks keys up in a dict and keeps each result once, in order of first
    occurrence (eqsn/shared_dict.py:81-89, src/shared_dict.py:72-80). */
module Lists {
  import opened Outcomes

  /** list.index(x) as a position: the first index that holds x, or |s| when x is absent
      (where list.index raises ValueError). */
  function IndexOf<T(==)>(s: seq<T>, x: T): (r: nat)
    ensures r <= |s|
    ensures r < |s| <==> x in s
    ensures r < |s| ==> s[r] == x
    ensures x !in s[..r]
  {
    if s == [] then 0
    else if s[0] == x then 0
    else
      var r := 1 + IndexOf(s[1..], x);
      assert s[..r] == [s[0]] + s[1..][..r - 1];
      r
  }

  /** The first occurrence of an element lies in any prefix that holds it. */
  lemma {:induction false} IndexOfPrefix<T>(s: seq<T>, m: nat, x: T)
    requires m <= |s| && x in s[..m]
    ensures IndexOf(s, x) == IndexOf(s[..m], x) < m
  {
    if s[0] != x {
      assert s[1..][..m - 1] == s[..m][1..];
      IndexOfPrefix(s[1..], m - 1, x);
    }
  }

  /** list.remove(x) on a list that holds x: the first occurrence goes and the other elements
      keep their order. */
  function RemoveFirst<T(==)>(s: seq<T>, x: T): (r: seq<T>)
    requires x in s
    ensures |r| == |s| - 1
    ensures forall i :: 0 <= i < IndexOf(s, x) ==> r[i] == s[i]
    ensures forall i :: IndexOf(s, x) <= i < |r| ==> r[i] == s[i + 1]
    ensures multiset(r) + multiset{x} == multiset(s)
  {
    if s[0] == x then
      assert s == [s[0]] + s[1..];
      s[1..]
    else
      var t := RemoveFirst(s[1..], x);
      assert s == [s[0]] + s[1..];
      [s[0]] + t
  }

  /** Removing an element from a list without repetitions leaves none of it. */
  lemma DistinctRemove<T>(s: seq<T>, x: T)
    requires Distinct(s) && x in s
    ensures Distinct(RemoveFirst(s, x)) && x !in RemoveFirst(s, x)
    ensures forall y :: y in RemoveFirst(s, x) <==> y in s && y != x
  {
    var r, p := RemoveFirst(s, x), IndexOf(s, x);
    forall i | 0 <= i < |r|
      ensures r[i] == s[if i < p then i else i + 1]
    {
    }
    forall i, j | 0 <= i < j < |r|
      ensures r[i] != r[j]
    {
    }
    forall y
      ensures y in r <==> y in s && y != x
    {
      RemoveFirstIn(s, x, y);
    }
  }

  /** list.remove(x) keeps every other element. */
  lemma RemoveFirstIn<T>(s: seq<T>, x: T, y: T)
    requires x in s
    ensures y in RemoveFirst(s, x) ==> y in s
    ensures y in s && y != x ==> y in RemoveFirst(s, x)
  {
    assert y in RemoveFirst(s, x) <==> y in multiset(RemoveFirst(s, x));
    assert y in s <==> y in multiset(s);
  }

  /** A non-empty list is its head before its tail, also with more appended. */
  lemma HeadTail<T>(s: seq<T>, more: seq<T>)
    requires s != []
    ensures s == [s[0]] + s[1..] && s + more == [s[0]] + (s[1..] + more)
  {
  }

  lemma AppendAssoc<T>(a: seq<T>, b: seq<T>, c: seq<T>)
    ensures a + b + c == a + (b + c)
  {
  }

  /** Two lists without repetitions and without a common element make one. */
  lemma DistinctAppend<T>(x: seq<T>, y: seq<T>)
    requires Distinct(x) && Distinct(y) && forall e :: e in x ==> e !in y
    ensures Distinct(x + y)
  {
    forall i, j | 0 <= i < j < |x + y|
      ensures (x + y)[i] != (x + y)[j]
    {
      if i < |x| {
        assert (x + y)[i] == x[i] && x[i] in x;
      } else {
        assert (x + y)[i] == y[i - |x|];
      }
      if j < |x| {
        assert (x + y)[j] == x[j];
      } else {
        assert (x + y)[j] == y[j - |x|];
      }
    }
  }

  /** The position of an element in a concatenation. */
  lemma {:induction false} IndexOfAppend<T>(x: seq<T>, y: seq<T>, e: T)
    ensures e in x ==> IndexOf(x + y, e) == IndexOf(x, e)
    ensures e !in x ==> IndexOf(x + y, e) == |x| + IndexOf(y, e)
    decreases |x|
  {
    if x != [] {
      assert (x + y)[1..] == x[1..] + y;
      IndexOfAppend(x[1..], y, e);
    } else {
      assert x + y == y;
    }
  }

  /** The de-duplicated values of two keys. */
  lemma PairLookup<K, V>(m: map<K, V>, a: K, b: K)
    requires a in m && b in m
    ensures Dedup(Lookups(m, [a, b])) == if m[a] == m[b] then [m[a]] else [m[a], m[b]]
  {
    var l := Lookups(m, [a, b]);
    assert l == [m[a], m[b]];
    assert l[..1] == [m[a]] && l[..1][..0] == [];
  }

  /** The values of the keys, in the keys' order. */
  function Lookups<K, V>(m: map<K, V>, keys: seq<K>): (r: seq<V>)
    requires forall k :: k in keys ==> k in m
    ensures |r| == |keys|
    ensures forall i :: 0 <= i < |keys| ==> r[i] == m[keys[i]]
  {
    seq(|keys|, i requires 0 <= i < |keys| => m[keys[i]])
  }

  /** No element occurs twice. */
  ghost predicate Distinct<T>(s: seq<T>)
  {
    forall i, j :: 0 <= i < j < |s| ==> s[i] != s[j]
  }

  /** The elements of s, each once, in order of first occurrence: what appending every element
      that is not in the result yet builds. */
  function Dedup<T(==)>(s: seq<T>): (r: seq<T>)
    ensures Distinct(r)
    ensures forall i :: 0 <= i < |r| ==> r[i] in s
    ensures forall i :: 0 <= i < |s| ==> s[i] in r
    ensures |r| <= |s|
    decreases |s|
  {
    if s == [] then []
    else
      var d := Dedup(s[..|s| - 1]);
      assert forall i :: 0 <= i < |s| - 1 ==> s[i] == s[..|s| - 1][i];
      if s[|s| - 1] in d then d else d + [s[|s| - 1]]
  }

  /** Dedup keeps the order of first occurrence: an earlier element of the result first
      occurs earlier in the input. */
  lemma {:induction false} DedupOrder<T>(s: seq<T>, i: nat, j: nat)
    requires i < j < |Dedup(s)|
    ensures IndexOf(s, Dedup(s)[i]) < IndexOf(s, Dedup(s)[j])
    decreases |s|
  {
    var n := |s| - 1;
    var p, d := s[..n], Dedup(s[..n]);
    var x, y := Dedup(s)[i], Dedup(s)[j];
    assert x in d by {
      if s[n] !in d { assert Dedup(s) == d + [s[n]]; }
    }
    IndexOfPrefix(s, n, x);
    if j < |d| {
      assert Dedup(s)[j] == d[j] && Dedup(s)[i] == d[i] by {
        if s[n] !in d { assert Dedup(s) == d + [s[n]]; }
      }
      IndexOfPrefix(s, n, y);
      DedupOrder(p, i, j);
    } else {
      assert s[n] !in d && y == s[n];
      assert y !in p;
      assert s[..n + 1] == s;
      assert IndexOf(s, y) == n;
    }
  }

  /** Dedup of a longer input extends Dedup of the shorter one by the new element, when it is new. */
  lemma DedupSnoc<T>(s: seq<T>, x: T)
    ensures Dedup(s + [x]) == if x in Dedup(s) then Dedup(s) else Dedup(s) + [x]
  {
    assert (s + [x])[..|s|] == s;
  }

  /** Looks every key up in m and keeps each value once, in order of first occurrence; an
      absent key raises KeyError. */
  method LookupDistinct<K, V(==)>(m: map<K, V>, keys: seq<K>) returns (r: Result<seq<V>>)
    ensures r.Err? <==> exists k :: k in keys && k !in m
    ensures r.Err? ==> r.error == KeyError
    ensures r.Ok? ==> r.value == Dedup(Lookups(m, keys))
  {
    var ret: seq<V> := [];
    var i := 0;
    while i < |keys|
      invariant 0 <= i <= |keys|
      invariant forall k :: k in keys[..i] ==> k in m
      invariant ret == Dedup(Lookups(m, keys[..i]))
    {
      if keys[i] !in m {
        return Err(KeyError);
      }
      var res := m[keys[i]];
      assert keys[..i + 1] == keys[..i] + [keys[i]];
      assert Lookups(m, keys[..i + 1]) == Lookups(m, keys[..i]) + [res];
      DedupSnoc(Lookups(m, keys[..i]), res);
      if res !in ret {
        ret := ret + [res];
      }
      i := i + 1;
    }
    assert keys[..i] == keys;
    return Ok(ret);
  }
}
