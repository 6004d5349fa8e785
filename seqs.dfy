/** Sequence helpers: order-preserving selection and the insertion-ordered set
    (a `LinkedHashSet` seen as a duplicate-free sequence). */
module Seqs {

  /** No element occurs twice. */
  predicate NoDuplicates<T(==,!new)>(s: seq<T>) {
    forall i, j :: 0 <= i < j < |s| ==> s[i] != s[j]
  }

  /** The position of the first occurrence of `x` in `s`. */
  function IndexOf<T(==,!new)>(s: seq<T>, x: T): (k: nat)
    requires x in s
    ensures k < |s| && s[k] == x
    ensures forall j :: 0 <= j < k ==> s[j] != x
  {
    if s[0] == x then 0 else 1 + IndexOf(s[1..], x)
  }

  /** The elements of `s` that satisfy `p`, in their order in `s`. */
  function Filter<T(==,!new)>(s: seq<T>, p: T -> bool): (r: seq<T>)
    ensures |r| <= |s|
  {
    if s == [] then [] else (if p(s[0]) then [s[0]] else []) + Filter(s[1..], p)
  }

  /** What is selected is exactly what is in `s` and satisfies `p`. */
  lemma {:induction false} FilterMembers<T(!new)>(s: seq<T>, p: T -> bool)
    ensures forall x :: x in Filter(s, p) <==> x in s && p(x)
  {
    if s != [] {
      FilterMembers(s[1..], p);
      assert forall x :: x in s <==> x == s[0] || x in s[1..];
    }
  }

  lemma FilterSingleton<T(!new)>(x: T, p: T -> bool)
    ensures Filter([x], p) == if p(x) then [x] else []
  {
    assert [x][1..] == [];
  }

  lemma {:induction false} FilterNone<T(!new)>(s: seq<T>, p: T -> bool)
    requires forall i :: 0 <= i < |s| ==> !p(s[i])
    ensures Filter(s, p) == []
  {
    if s != [] {
      FilterNone(s[1..], p);
    }
  }

  lemma {:induction false} FilterAppend<T(!new)>(a: seq<T>, b: seq<T>, p: T -> bool)
    ensures Filter(a + b, p) == Filter(a, p) + Filter(b, p)
  {
    if a == [] {
      assert a + b == b;
    } else {
      var head := if p(a[0]) then [a[0]] else [];
      var ab := a + b;
      assert ab != [] && ab[0] == a[0];
      assert ab[1..] == a[1..] + b;
      assert Filter(ab, p) == head + Filter(a[1..] + b, p);
      FilterAppend(a[1..], b, p);
      assert Filter(a, p) == head + Filter(a[1..], p);
      assert head + (Filter(a[1..], p) + Filter(b, p)) == (head + Filter(a[1..], p)) + Filter(b, p);
    }
  }

  /** Selecting from a duplicate-free sequence leaves it duplicate-free. */
  lemma {:induction false} FilterNoDuplicates<T(!new)>(s: seq<T>, p: T -> bool)
    requires NoDuplicates(s)
    ensures NoDuplicates(Filter(s, p))
  {
    if s != [] {
      assert NoDuplicates(s[1..]) by {
        forall i, j | 0 <= i < j < |s[1..]| ensures s[1..][i] != s[1..][j] {
          assert s[1..][i] == s[i + 1] && s[1..][j] == s[j + 1];
        }
      }
      FilterNoDuplicates(s[1..], p);
      FilterMembers(s[1..], p);
      assert s[0] !in s[1..];
      assert s[0] !in Filter(s[1..], p);
    }
  }

  /** Every element of `r` occurs in `s`, and `r` lists them in their order in `s`. */
  ghost predicate InOrderOf<T(!new)>(s: seq<T>, r: seq<T>) {
    && (forall x :: x in r ==> x in s)
    && (forall i, j :: 0 <= i < j < |r| ==> IndexOf(s, r[i]) < IndexOf(s, r[j]))
  }

  lemma IndexOfTail<T(!new)>(s: seq<T>, y: T)
    requires s != [] && y in s[1..] && y != s[0]
    ensures IndexOf(s, y) == 1 + IndexOf(s[1..], y)
  {
  }

  lemma TailNoDuplicates<T(!new)>(s: seq<T>)
    requires s != [] && NoDuplicates(s)
    ensures NoDuplicates(s[1..]) && s[0] !in s[1..]
  {
    forall i, j | 0 <= i < j < |s[1..]| ensures s[1..][i] != s[1..][j] {
      assert s[1..][i] == s[i + 1] && s[1..][j] == s[j + 1];
    }
  }

  /** Removing one element keeps a sequence free of duplicates. */
  lemma RemoveNoDuplicates<T(!new)>(s: seq<T>, i: nat)
    requires i < |s| && NoDuplicates(s)
    ensures NoDuplicates(s[..i] + s[i + 1..])
  {
    var r := s[..i] + s[i + 1..];
    forall a, b | 0 <= a < b < |r| ensures r[a] != r[b] {
      assert r[a] == s[if a < i then a else a + 1];
      assert r[b] == s[if b < i then b else b + 1];
    }
  }

  /** Order in the tail is order in the whole, with or without the head in front. */
  lemma OrderCons<T(!new)>(s: seq<T>, rt: seq<T>, r: seq<T>)
    requires s != [] && s[0] !in s[1..] && InOrderOf(s[1..], rt)
    requires r == rt || r == [s[0]] + rt
    ensures InOrderOf(s, r)
  {
    forall y | y in rt ensures IndexOf(s, y) == 1 + IndexOf(s[1..], y) {
      IndexOfTail(s, y);
    }
    forall x | x in r ensures x in s {
      if x != s[0] {
        assert x in rt && x in s[1..];
      }
    }
    forall i, j | 0 <= i < j < |r| ensures IndexOf(s, r[i]) < IndexOf(s, r[j]) {
      if r == rt {
        assert r[i] in rt && r[j] in rt;
      } else {
        assert r[j] == rt[j - 1];
        if i > 0 {
          assert r[i] == rt[i - 1];
        }
      }
    }
  }

  /** Selection keeps the relative order of what it keeps. */
  lemma {:induction false} FilterKeepsOrder<T(!new)>(s: seq<T>, p: T -> bool)
    requires NoDuplicates(s)
    ensures InOrderOf(s, Filter(s, p))
  {
    if s != [] {
      TailNoDuplicates(s);
      FilterKeepsOrder(s[1..], p);
      OrderCons(s, Filter(s[1..], p), Filter(s, p));
    }
  }

  /** `LinkedHashSet.addAll`: append, left to right, each element of `xs` not
      already present; earlier elements and their order are untouched. */
  function AddAll<T(==,!new)>(s: seq<T>, xs: seq<T>): (r: seq<T>)
    ensures |s| <= |r| && r[..|s|] == s
    ensures forall x :: x in r <==> x in s || x in xs
    ensures forall i :: |s| <= i < |r| ==> r[i] !in s
    decreases |xs|
  {
    if xs == [] then s
    else
      var s' := if xs[0] in s then s else s + [xs[0]];
      assert s'[..|s|] == s;
      assert forall x :: x in xs <==> x == xs[0] || x in xs[1..];
      AddAll(s', xs[1..])
  }

  lemma {:induction false} AddAllNoDuplicates<T(!new)>(s: seq<T>, xs: seq<T>)
    requires NoDuplicates(s)
    ensures NoDuplicates(AddAll(s, xs))
    decreases |xs|
  {
    if xs != [] {
      var s' := if xs[0] in s then s else s + [xs[0]];
      AddAllNoDuplicates(s', xs[1..]);
    }
  }

  /** Adding `a` and then `b` is adding `a + b`. */
  lemma {:induction false} AddAllAppend<T(!new)>(s: seq<T>, a: seq<T>, b: seq<T>)
    ensures AddAll(s, a + b) == AddAll(AddAll(s, a), b)
    decreases |a|
  {
    if a == [] {
      assert a + b == b;
    } else {
      assert (a + b)[0] == a[0];
      assert (a + b)[1..] == a[1..] + b;
      var s' := if a[0] in s then s else s + [a[0]];
      AddAllAppend(s', a[1..], b);
    }
  }

  /** Adding a set built by adding `xs` to `u` is the same as adding `u`, then `xs`. */
  lemma {:induction false} AddAllAssociative<T(!new)>(s: seq<T>, u: seq<T>, xs: seq<T>)
    ensures AddAll(s, AddAll(u, xs)) == AddAll(AddAll(s, u), xs)
    decreases |xs|
  {
    if xs != [] {
      var x := xs[0];
      var u' := if x in u then u else u + [x];
      AddAllAssociative(s, u', xs[1..]);
      var w := AddAll(s, u);
      if x in u {
        assert x in w;
      } else {
        AddAllAppend(s, u, [x]);
        assert AddAll(w, [x]) == (if x in w then w else w + [x]);
      }
    }
  }

  /** De-duplicating `xs` first (as `getInjectedClassNames` does) changes nothing. */
  lemma AddAllDeduplicated<T(!new)>(s: seq<T>, xs: seq<T>)
    ensures AddAll(s, AddAll([], xs)) == AddAll(s, xs)
  {
    AddAllAssociative(s, [], xs);
  }

  /** The appended elements are elements of `xs`, in the order of their first
      occurrence in `xs`. */
  lemma {:induction false} AddAllFirstDiscoveryOrder<T(!new)>(s: seq<T>, xs: seq<T>)
    ensures var r := AddAll(s, xs);
      forall i :: |s| <= i < |r| ==> r[i] in xs
    ensures var r := AddAll(s, xs);
      forall i, j :: |s| <= i < j < |r| ==> IndexOf(xs, r[i]) < IndexOf(xs, r[j])
    decreases |xs|
  {
    var r := AddAll(s, xs);
    if xs != [] {
      var x := xs[0];
      var ys := xs[1..];
      var s' := if x in s then s else s + [x];
      AddAllFirstDiscoveryOrder(s', ys);
      assert r == AddAll(s', ys);
      forall y | y in ys && y != x ensures IndexOf(xs, y) == 1 + IndexOf(ys, y) {
        IndexOfTail(xs, y);
      }
      forall i | |s'| <= i < |r| ensures r[i] != x && r[i] in ys {
        assert r[i] !in s';
      }
      if x !in s {
        assert r[|s|] == x by { assert r[..|s'|] == s'; assert s'[|s|] == x; }
      }
    }
  }
}
