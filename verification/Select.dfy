/** `nth_element` on a slice: a quickselect with the contract the C++ standard gives it. */
module Select {
  import opened Geometry

  predicate Below(a: Axis, p: Point, q: Point) { Coord(p, a) < Coord(q, a) }

  function Swap<T>(s: seq<T>, i: nat, j: nat): (r: seq<T>)
    requires i < |s| && j < |s|
    ensures |r| == |s|
  {
    s[i := s[j]][j := s[i]]
  }

  /** One pass over `s` with pivot `s[|s|-1]`: entries `[..i]` are below it, entries `[i..j]` are
      not. Returns the slice and the place where the pivot ends up. */
  function Sweep(s: seq<Point>, a: Axis, i: nat, j: nat): (r: (seq<Point>, nat))
    requires i <= j < |s|
    ensures |r.0| == |s| && r.1 < |s|
    decreases |s| - j
  {
    if j == |s| - 1 then (Swap(s, i, j), i)
    else if Below(a, s[j], s[|s| - 1]) then Sweep(Swap(s, i, j), a, i + 1, j + 1)
    else Sweep(s, a, i, j + 1)
  }

  /** The whole slice with position `m` settled, as `nth_element` leaves it. */
  function NthElement(s: seq<Point>, a: Axis, m: nat): (r: seq<Point>)
    requires m < |s|
    ensures |r| == |s|
    decreases |s|
  {
    var (t, c) := Sweep(s, a, 0, 0);
    if m < c then NthElement(t[..c], a, m) + t[c..]
    else if m > c then t[..c + 1] + NthElement(t[c + 1..], a, m - c - 1)
    else t
  }

  ghost predicate AtMost(s: seq<Point>, a: Axis, v: real) {
    forall p :: p in s ==> Coord(p, a) <= v
  }

  ghost predicate AtLeast(s: seq<Point>, a: Axis, v: real) {
    forall p :: p in s ==> v <= Coord(p, a)
  }

  ghost predicate SplitAt(s: seq<Point>, a: Axis, m: nat)
    requires m < |s|
  {
    AtMost(s[..m], a, Coord(s[m], a)) && AtLeast(s[m + 1..], a, Coord(s[m], a))
  }

  lemma SwapPermutes<T>(s: seq<T>, i: nat, j: nat)
    requires i < |s| && j < |s|
    ensures multiset(Swap(s, i, j)) == multiset(s)
  {
  }

  lemma {:induction false} SweepPermutes(s: seq<Point>, a: Axis, i: nat, j: nat)
    requires i <= j < |s|
    ensures multiset(Sweep(s, a, i, j).0) == multiset(s)
    decreases |s| - j
  {
    SwapPermutes(s, i, j);
    if j < |s| - 1 {
      if Below(a, s[j], s[|s| - 1]) {
        SweepPermutes(Swap(s, i, j), a, i + 1, j + 1);
      } else {
        SweepPermutes(s, a, i, j + 1);
      }
    }
  }

  /** Loop invariant of the pass, with `v` the pivot's coordinate. */
  ghost predicate Swept(s: seq<Point>, a: Axis, v: real, i: nat, j: nat)
    requires i <= j < |s|
  {
    && Coord(s[|s| - 1], a) == v
    && (forall k :: 0 <= k < i ==> Coord(s[k], a) < v)
    && (forall k :: i <= k < j ==> Coord(s[k], a) >= v)
  }

  lemma {:induction false} SweepSplits(s: seq<Point>, a: Axis, v: real, i: nat, j: nat)
    requires i <= j < |s| && Swept(s, a, v, i, j)
    ensures var (t, c) := Sweep(s, a, i, j); SplitAt(t, a, c)
    decreases |s| - j
  {
    if j == |s| - 1 {
      SwapEnds(s, a, v, i, j);
    } else if Below(a, s[j], s[|s| - 1]) {
      var t := Swap(s, i, j);
      assert forall k :: 0 <= k < |s| && k != i && k != j ==> t[k] == s[k];
      SweepSplits(t, a, v, i + 1, j + 1);
    } else {
      SweepSplits(s, a, v, i, j + 1);
    }
  }

  lemma SwapEnds(s: seq<Point>, a: Axis, v: real, i: nat, j: nat)
    requires i <= j == |s| - 1 && Swept(s, a, v, i, j)
    ensures SplitAt(Swap(s, i, j), a, i)
  {
    var t := Swap(s, i, j);
    forall p | p in t[..i] ensures Coord(p, a) <= v {
      var k :| 0 <= k < i && t[k] == p;
      assert t[k] == s[k];
    }
    forall p | p in t[i + 1..] ensures v <= Coord(p, a) {
      var k :| i < k < |t| && t[k] == p;
      assert t[k] == if k == j then s[i] else s[k];
    }
  }

  lemma SameBound(s: seq<Point>, t: seq<Point>, a: Axis, v: real)
    requires multiset(s) == multiset(t)
    ensures AtMost(s, a, v) <==> AtMost(t, a, v)
    ensures AtLeast(s, a, v) <==> AtLeast(t, a, v)
  {
    assert forall p :: p in s <==> p in multiset(s);
    assert forall p :: p in t <==> p in multiset(t);
  }

  /** Settling position `m` left of a split position leaves the split as it was. */
  lemma SplitLeft(f: seq<Point>, t: seq<Point>, a: Axis, c: nat, m: nat)
    requires m < c < |t| && |f| == c && multiset(f) == multiset(t[..c])
    requires SplitAt(t, a, c) && SplitAt(f, a, m)
    ensures SplitAt(f + t[c..], a, m)
  {
    var r := f + t[c..];
    SameBound(f, t[..c], a, Coord(t[c], a));
    assert r[..m] == f[..m] && r[m] == f[m];
    assert r[m + 1..] == f[m + 1..] + ([t[c]] + t[c + 1..]);
    assert f[m] in f;
  }

  lemma SplitRight(f: seq<Point>, t: seq<Point>, a: Axis, c: nat, m: nat)
    requires c < m < |t| && |f| == |t| - c - 1 && multiset(f) == multiset(t[c + 1..])
    requires SplitAt(t, a, c) && SplitAt(f, a, m - c - 1)
    ensures SplitAt(t[..c + 1] + f, a, m)
  {
    var r := t[..c + 1] + f;
    SameBound(f, t[c + 1..], a, Coord(t[c], a));
    assert r[m] == f[m - c - 1] && r[m + 1..] == f[m - c..];
    assert r[..m] == (t[..c] + [t[c]]) + f[..m - c - 1];
    assert f[m - c - 1] in f;
  }

  /** The standard's contract: a permutation, nothing before `m` above it, nothing after it below. */
  lemma {:induction false} NthElementContract(s: seq<Point>, a: Axis, m: nat)
    requires m < |s|
    ensures multiset(NthElement(s, a, m)) == multiset(s)
    ensures SplitAt(NthElement(s, a, m), a, m)
    decreases |s|
  {
    SweepPermutes(s, a, 0, 0);
    SweepSplits(s, a, Coord(s[|s| - 1], a), 0, 0);
    var (t, c) := Sweep(s, a, 0, 0);
    if m < c {
      NthElementContract(t[..c], a, m);
      assert t == t[..c] + t[c..];
      SplitLeft(NthElement(t[..c], a, m), t, a, c, m);
    } else if m > c {
      NthElementContract(t[c + 1..], a, m - c - 1);
      assert t == t[..c + 1] + t[c + 1..];
      SplitRight(NthElement(t[c + 1..], a, m - c - 1), t, a, c, m);
    }
  }

  /** One in-place pass over positions `l..r`; `c` is where the pivot ended up. */
  method SweepInPlace(storage: array<Point>, l: nat, r: nat, a: Axis) returns (c: nat)
    requires l <= r < storage.Length
    modifies storage
    ensures l <= c <= r
    ensures storage[..l] == old(storage[..l]) && storage[r + 1..] == old(storage[r + 1..])
    ensures Sweep(old(storage[l..r + 1]), a, 0, 0) == (storage[l..r + 1], c - l)
  {
    ghost var s := storage[l..r + 1];
    c := l;
    for j := l to r
      invariant l <= c <= j
      invariant storage[..l] == old(storage[..l]) && storage[r + 1..] == old(storage[r + 1..])
      invariant Sweep(s, a, 0, 0) == Sweep(storage[l..r + 1], a, c - l, j - l)
    {
      if Below(a, storage[j], storage[r]) {
        SwapInPlace(storage, l, c, j, r);
        c := c + 1;
      }
    }
    SwapInPlace(storage, l, c, r, r);
  }

  method SwapInPlace(storage: array<Point>, l: nat, i: nat, j: nat, r: nat)
    requires l <= i <= j <= r < storage.Length
    modifies storage
    ensures storage[..l] == old(storage[..l]) && storage[r + 1..] == old(storage[r + 1..])
    ensures storage[l..r + 1] == Swap(old(storage[l..r + 1]), i - l, j - l)
  {
    storage[i], storage[j] := storage[j], storage[i];
  }

  /** The in-place form, on positions `l..r` of `storage`. */
  method NthElementInPlace(storage: array<Point>, l: nat, m: nat, r: nat, a: Axis)
    requires l <= m <= r < storage.Length
    modifies storage
    ensures storage[..l] == old(storage[..l]) && storage[r + 1..] == old(storage[r + 1..])
    ensures storage[l..r + 1] == NthElement(old(storage[l..r + 1]), a, m - l)
    decreases r - l
  {
    hide *;
    ghost var s := storage[l..r + 1];
    var c := SweepInPlace(storage, l, r, a);
    ghost var mid := storage[..];
    if m < c {
      NthElementInPlace(storage, l, m, c - 1, a);
      SettledLeft(s, mid, storage[..], a, l, m, c, r);
    } else if m > c {
      NthElementInPlace(storage, c + 1, m, r, a);
      SettledRight(s, mid, storage[..], a, l, m, c, r);
    } else {
      NthElementStep(s, a, m - l, mid[l..r + 1], c - l);
    }
  }

  /** `t` is the array after the pass, `u` after position `m` was settled left of the pivot. */
  lemma SettledLeft(s: seq<Point>, t: seq<Point>, u: seq<Point>, a: Axis, l: nat, m: nat, c: nat, r: nat)
    requires l <= m < c <= r < |t| == |u| && |s| == r + 1 - l && Sweep(s, a, 0, 0) == (t[l..r + 1], c - l)
    requires u[..l] == t[..l] && u[c..] == t[c..] && u[l..c] == NthElement(t[l..c], a, m - l)
    ensures u[..l] == t[..l] && u[r + 1..] == t[r + 1..] && u[l..r + 1] == NthElement(s, a, m - l)
  {
    hide *;
    JoinLeft(t, u, l, c, r);
    NthElementStep(s, a, m - l, t[l..r + 1], c - l);
  }

  lemma SettledRight(s: seq<Point>, t: seq<Point>, u: seq<Point>, a: Axis, l: nat, m: nat, c: nat, r: nat)
    requires l <= c < m <= r < |t| == |u| && |s| == r + 1 - l && Sweep(s, a, 0, 0) == (t[l..r + 1], c - l)
    requires u[..c + 1] == t[..c + 1] && u[r + 1..] == t[r + 1..]
    requires u[c + 1..r + 1] == NthElement(t[c + 1..r + 1], a, m - c - 1)
    ensures u[..l] == t[..l] && u[r + 1..] == t[r + 1..] && u[l..r + 1] == NthElement(s, a, m - l)
  {
    hide *;
    JoinRight(t, u, l, c, r);
    NthElementStep(s, a, m - l, t[l..r + 1], c - l);
  }

  /** One unfolding, for the method. */
  lemma NthElementStep(s: seq<Point>, a: Axis, m: nat, t: seq<Point>, c: nat)
    requires m < |s| == |t| && c < |t| && Sweep(s, a, 0, 0) == (t, c)
    ensures NthElement(s, a, m)
         == if m < c then NthElement(t[..c], a, m) + t[c..]
            else if m > c then t[..c + 1] + NthElement(t[c + 1..], a, m - c - 1)
            else t
  {
  }

  lemma JoinLeft(t: seq<Point>, u: seq<Point>, l: nat, c: nat, r: nat)
    requires l <= c <= r < |t| == |u| && t[..l] == u[..l] && t[c..] == u[c..]
    ensures u[l..r + 1] == u[l..c] + t[l..r + 1][c - l..]
    ensures u[r + 1..] == t[r + 1..] && t[l..r + 1][..c - l] == t[l..c]
  {
    assert u[r + 1..] == u[c..][r + 1 - c..];
    assert u[c..r + 1] == u[c..][..r + 1 - c];
    assert u[l..r + 1] == u[l..c] + u[c..r + 1];
  }

  lemma JoinRight(t: seq<Point>, u: seq<Point>, l: nat, c: nat, r: nat)
    requires l <= c <= r < |t| == |u| && t[..c + 1] == u[..c + 1] && t[r + 1..] == u[r + 1..]
    ensures u[l..r + 1] == t[l..r + 1][..c - l + 1] + u[c + 1..r + 1]
    ensures u[..l] == t[..l] && t[l..r + 1][c - l + 1..] == t[c + 1..r + 1]
  {
    assert u[..l] == u[..c + 1][..l];
    assert u[l..c + 1] == u[..c + 1][l..];
    assert u[l..r + 1] == u[l..c + 1] + u[c + 1..r + 1];
  }
}
