/** Lists of things that occur once, as the kernel keeps them. */
module Lists {
  datatype Option<+T> = None | Some(value: T)

  predicate Distinct<T(==)>(s: seq<T>) {
    s == [] || (s[0] !in s[1..] && Distinct(s[1..]))
  }

  /** The list with an element taken out. */
  function Without<T(==)>(s: seq<T>, x: T): (r: seq<T>) {
    if s == [] then []
    else if s[0] == x then Without(s[1..], x)
    else [s[0]] + Without(s[1..], x)
  }

  lemma {:induction false} WithoutHas<T>(s: seq<T>, x: T, y: T)
    ensures y in Without(s, x) <==> y in s && y != x
  {
    if s != [] {
      WithoutHas(s[1..], x, y);
      assert y in s <==> y == s[0] || y in s[1..];
    }
  }

  lemma WithoutAll<T(!new)>(s: seq<T>, x: T)
    ensures forall y :: y in Without(s, x) <==> y in s && y != x
  {
    forall y ensures y in Without(s, x) <==> y in s && y != x { WithoutHas(s, x, y); }
  }

  lemma {:induction false} WithoutAbsent<T>(s: seq<T>, x: T)
    requires x !in s
    ensures Without(s, x) == s
  {
    if s != [] { WithoutAbsent(s[1..], x); }
  }

  lemma {:induction false} WithoutSnoc<T>(s: seq<T>, y: T, x: T)
    requires x != y
    ensures Without(s + [y], x) == Without(s, x) + [y]
  {
    if s == [] {
      assert s + [y] == [y];
    } else {
      WithoutSnoc(s[1..], y, x);
      assert (s + [y])[1..] == s[1..] + [y];
    }
  }

  lemma WithoutFront<T>(y: T, s: seq<T>, x: T)
    ensures Without([y] + s, x) == if y == x then Without(s, x) else [y] + Without(s, x)
  {
    assert ([y] + s)[1..] == s;
  }

  lemma {:induction false} WithoutDistinct<T>(s: seq<T>, x: T)
    requires Distinct(s)
    ensures Distinct(Without(s, x)) && |Without(s, x)| == |s| - (if x in s then 1 else 0)
  {
    if s != [] {
      WithoutDistinct(s[1..], x);
      WithoutHas(s[1..], x, s[0]);
      if s[0] == x { WithoutAbsent(s[1..], x); }
      else { assert Without(s, x)[1..] == Without(s[1..], x); }
    }
  }

  lemma {:induction false} DistinctParts<T>(a: seq<T>, b: seq<T>)
    requires Distinct(a + b)
    ensures Distinct(a) && Distinct(b) && forall i :: 0 <= i < |a| ==> a[i] !in b
    decreases |a|
  {
    if a == [] {
      assert a + b == b;
    } else {
      assert (a + b)[1..] == a[1..] + b;
      DistinctParts(a[1..], b);
    }
  }

  lemma {:induction false} DistinctJoin<T>(a: seq<T>, b: seq<T>)
    requires Distinct(a) && Distinct(b) && forall i :: 0 <= i < |a| ==> a[i] !in b
    ensures Distinct(a + b)
    decreases |a|
  {
    if a == [] {
      assert a + b == b;
    } else {
      assert (a + b)[1..] == a[1..] + b;
      DistinctJoin(a[1..], b);
    }
  }

  lemma DistinctSnoc<T>(s: seq<T>, x: T)
    requires Distinct(s) && x !in s
    ensures Distinct(s + [x])
  {
    assert [x][1..] == [];
    DistinctJoin(s, [x]);
  }

  /** Putting one in, at any place. */
  lemma InsertDistinct<T>(s: seq<T>, pos: nat, x: T)
    requires pos <= |s| && Distinct(s) && x !in s
    ensures Distinct(s[..pos] + [x] + s[pos..])
  {
    var a, b := s[..pos], s[pos..];
    assert s == a + b;
    DistinctParts(a, b);
    DistinctSnoc(a, x);
    forall i | 0 <= i < |a + [x]| ensures (a + [x])[i] !in b {
      if i < |a| { assert a[i] !in b; }
    }
    DistinctJoin(a + [x], b);
  }

  lemma InsertHas<T(!new)>(s: seq<T>, pos: nat, x: T)
    requires pos <= |s|
    ensures forall y :: y in s[..pos] + [x] + s[pos..] <==> y in s || y == x
  {
    assert s == s[..pos] + s[pos..];
  }

  lemma SplitAt<T>(s: seq<T>, i: nat, a: seq<T>, b: seq<T>)
    requires Distinct(s) && i < |s| && a == s[..i] && b == s[i + 1..]
    ensures Distinct(a) && Distinct(b) && s[i] !in b && s[i] !in a
    ensures forall k :: 0 <= k < |a| ==> a[k] !in b
  {
    var tail := [s[i]] + b;
    assert s == a + tail;
    DistinctParts(a, tail);
    assert tail[0] == s[i] && tail[1..] == b;
    forall k | 0 <= k < |a| ensures a[k] !in b && a[k] != s[i] {
      assert a[k] !in tail;
    }
  }

  /** Taking one out, by its place. */
  lemma RemoveDistinct<T(!new)>(s: seq<T>, i: nat)
    requires Distinct(s) && i < |s|
    ensures Distinct(s[..i] + s[i + 1..])
    ensures forall y :: y in s[..i] + s[i + 1..] <==> y in s && y != s[i]
  {
    var a, b := s[..i], s[i + 1..];
    SplitAt(s, i, a, b);
    DistinctJoin(a, b);
    assert s == a + [s[i]] + b;
    hide Distinct;
  }

  lemma DistinctSlice<T>(s: seq<T>, i: nat, j: nat)
    requires Distinct(s) && i <= j <= |s|
    ensures Distinct(s[i..j])
  {
    assert s == s[..i] + s[i..] && s[i..] == s[i..j] + s[j..];
    DistinctParts(s[..i], s[i..]);
    DistinctParts(s[i..j], s[j..]);
  }

  lemma {:induction false} DistinctAt<T>(s: seq<T>, i: nat, j: nat)
    requires Distinct(s) && i < j < |s|
    ensures s[i] != s[j]
  {
    if i == 0 { assert s[j] in s[1..]; } else { DistinctAt(s[1..], i - 1, j - 1); }
  }
}
