/** In-place deletion from a slice while walking it backwards, as the ingress and service builders do. */
module Slices {
  function Filter<T>(s: seq<T>, keep: T -> bool): (r: seq<T>)
    ensures |r| <= |s|
  {
    if s == [] then [] else (if keep(s[0]) then [s[0]] else []) + Filter(s[1..], keep)
  }

  lemma {:induction false} FilterConcat<T>(s: seq<T>, t: seq<T>, keep: T -> bool)
    ensures Filter(s + t, keep) == Filter(s, keep) + Filter(t, keep)
  {
    if s == [] {
      assert s + t == t;
    } else {
      assert (s + t)[1..] == s[1..] + t;
      FilterConcat(s[1..], t, keep);
      var head := if keep(s[0]) then [s[0]] else [];
      assert head + (Filter(s[1..], keep) + Filter(t, keep)) == head + Filter(s[1..], keep) + Filter(t, keep);
    }
  }

  lemma CountHead<T>(s: seq<T>, x: T)
    requires s != []
    ensures multiset(s)[x] == multiset(s[1..])[x] + if s[0] == x then 1 else 0
  {
    assert s == [s[0]] + s[1..];
  }

  lemma {:induction false} FilterCount<T>(s: seq<T>, keep: T -> bool, x: T)
    ensures multiset(Filter(s, keep))[x] == if keep(x) then multiset(s)[x] else 0
  {
    if s != [] {
      FilterCount(s[1..], keep, x);
      CountHead(s, x);
      if keep(s[0]) {
        assert Filter(s, keep)[1..] == Filter(s[1..], keep);
        CountHead(Filter(s, keep), x);
      }
    }
  }

  /** What is kept and what is not make up the whole. */
  lemma FilterSplits<T(!new)>(s: seq<T>, keep: T -> bool, drop: T -> bool)
    requires forall x :: drop(x) == !keep(x)
    ensures multiset(Filter(s, keep)) + multiset(Filter(s, drop)) == multiset(s)
  {
    forall x ensures (multiset(Filter(s, keep)) + multiset(Filter(s, drop)))[x] == multiset(s)[x] {
      FilterCount(s, keep, x);
      FilterCount(s, drop, x);
    }
  }

  /** Lists with the same members keep the same members. */
  lemma FilterShares<T(!new)>(s: seq<T>, t: seq<T>, keep: T -> bool)
    requires multiset(s) == multiset(t)
    ensures multiset(Filter(s, keep)) == multiset(Filter(t, keep))
  {
    var a, b := multiset(Filter(s, keep)), multiset(Filter(t, keep));
    forall x ensures a[x] == b[x] {
      FilterCount(s, keep, x);
      FilterCount(t, keep, x);
    }
    assert a == b;
  }

  lemma {:induction false} FilterKeeps<T>(s: seq<T>, keep: T -> bool, x: T)
    ensures x in Filter(s, keep) <==> x in s && keep(x)
  {
    if s != [] {
      FilterKeeps(s[1..], keep, x);
      assert s == [s[0]] + s[1..];
    }
  }

  /** Removes a[i] from the first `len` elements by moving the later ones down. */
  method RemoveAt<T>(a: array<T>, len: nat, i: nat)
    requires i < len <= a.Length
    modifies a
    ensures a[..len - 1] == old(a[..i]) + old(a[i + 1..len])
    ensures a[len..] == old(a[len..])
  {
    for j := i to len - 1
      invariant forall k | 0 <= k < i :: a[k] == old(a[k])
      invariant forall k | i <= k < j :: a[k] == old(a[k + 1])
      invariant forall k | j <= k < a.Length :: a[k] == old(a[k])
    {
      a[j] := a[j + 1];
    }
  }

  /** Walking backwards while deleting leaves exactly the kept elements, in order. */
  method DeleteUnless<T>(a: array<T>, n: nat, keep: T -> bool) returns (len: nat)
    requires n <= a.Length
    modifies a
    ensures len <= n && a[..len] == Filter(old(a[..n]), keep)
    ensures a[n..] == old(a[n..])
  {
    len := n;
    var i := n;
    while i > 0
      invariant 0 <= i <= len <= n
      invariant a[..i] == old(a[..i]) && a[n..] == old(a[n..])
      invariant a[i..len] == Filter(old(a[i..n]), keep)
    {
      i := i - 1;
      ghost var kept := a[i + 1..len];
      assert old(a[i..n]) == [old(a[i])] + old(a[i + 1..n]);
      assert a[i] == a[..i + 1][i];
      if !keep(a[i]) {
        ghost var tail := a[len..];
        RemoveAt(a, len, i);
        len := len - 1;
        assert a[..len][i..] == kept;
        assert a[..len][..i] == old(a[..i]);
      }
    }
    assert a[0..len] == a[..len] && old(a[0..n]) == old(a[..n]);
  }

  // ---------- Flattening ----------

  function Flatten<T>(ss: seq<seq<T>>): seq<T> {
    if ss == [] then [] else Flatten(ss[..|ss| - 1]) + ss[|ss| - 1]
  }

  lemma FlattenSnoc<T>(ss: seq<seq<T>>, s: seq<T>)
    ensures Flatten(ss + [s]) == Flatten(ss) + s
  {
    assert (ss + [s])[..|ss|] == ss;
  }

  lemma {:induction false} FlattenConcat<T>(a: seq<seq<T>>, b: seq<seq<T>>)
    ensures Flatten(a + b) == Flatten(a) + Flatten(b)
  {
    if b == [] {
      assert a + b == a;
    } else {
      var init, last := b[..|b| - 1], b[|b| - 1];
      FlattenConcat(a, init);
      FlattenSnoc(a + init, last);
      assert a + b == a + init + [last];
      assert Flatten(a) + (Flatten(init) + last) == Flatten(a) + Flatten(init) + last;
    }
  }

  lemma FlattenWithout<T>(ss: seq<seq<T>>, j: nat)
    requires j < |ss|
    ensures multiset(Flatten(ss)) == multiset(Flatten(ss[..j] + ss[j + 1..])) + multiset(ss[j])
  {
    var a, b := ss[..j], ss[j + 1..];
    SplitAt(ss, j);
    FlattenConcat(a + [ss[j]], b);
    FlattenSnoc(a, ss[j]);
    FlattenConcat(a, b);
    TakeOut(Flatten(a), ss[j], Flatten(b));
  }

  lemma SplitAt<T>(s: seq<T>, j: nat)
    requires j < |s|
    ensures s == s[..j] + [s[j]] + s[j + 1..]
  {
  }

  lemma TakeOut<T>(a: seq<T>, s: seq<T>, b: seq<T>)
    ensures multiset(a + s + b) == multiset(a + b) + multiset(s)
  {
  }

  /** The order of the parts does not matter to what the whole holds. */
  lemma {:induction false} FlattenIgnoresOrder<T>(a: seq<seq<T>>, b: seq<seq<T>>)
    requires multiset(a) == multiset(b)
    ensures multiset(Flatten(a)) == multiset(Flatten(b))
    decreases |a|
  {
    if a == [] {
      assert |multiset(b)| == 0;
    } else {
      var j := IndexIn(a[0], a, b);
      var rest, other := a[1..], b[..j] + b[j + 1..];
      SplitAt(a, 0);
      SplitAt(b, j);
      assert a[..0] + a[1..] == rest;
      assert multiset(rest) == multiset(a) - multiset{a[0]} && multiset(other) == multiset(b) - multiset{a[0]};
      FlattenIgnoresOrder(rest, other);
      FlattenWithout(a, 0);
      FlattenWithout(b, j);
    }
  }

  lemma IndexIn<T>(x: T, a: seq<T>, b: seq<T>) returns (j: nat)
    requires multiset(a) == multiset(b) && x in a
    ensures j < |b| && b[j] == x
  {
    assert x in multiset(b);
    j :| 0 <= j < |b| && b[j] == x;
  }
}
