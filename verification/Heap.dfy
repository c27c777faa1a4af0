/** `MANUAL_HEAP`: a bounded max-heap of candidates in an array. */
module Heap {
  import opened Geometry

  /** `PointType_CMP`: a candidate and its squared distance. */
  datatype Cmp = Cmp(point: Point, dist: real)

  const TIE := 0.0000000001

  /** `operator<`: distances nearer than 1e-10 count as equal and `x` decides. */
  predicate Less(a: Cmp, b: Cmp) {
    if Abs(a.dist - b.dist) < TIE then a.point.x < b.point.x else a.dist < b.dist
  }

  function Parent(i: nat): nat
    requires i > 0
  {
    (i - 1) / 2
  }

  // ---- Operations on the stored candidates ----

  /** `tmp` sinks from the hole at `i`. */
  function MoveDown(s: seq<Cmp>, i: nat, tmp: Cmp): (r: seq<Cmp>)
    requires i < |s|
    ensures |r| == |s|
    decreases |s| - i
  {
    var l := 2 * i + 1;
    if l < |s| then
      var c := if l + 1 < |s| && Less(s[l], s[l + 1]) then l + 1 else l;
      if Less(tmp, s[c]) then MoveDown(s[i := s[c]], c, tmp) else s[i := tmp]
    else s[i := tmp]
  }

  /** `tmp` rises from the hole at `i`. */
  function FloatUp(s: seq<Cmp>, i: nat, tmp: Cmp): (r: seq<Cmp>)
    requires i < |s|
    ensures |r| == |s|
    decreases i
  {
    if i > 0 && Less(s[Parent(i)], tmp) then FloatUp(s[i := s[Parent(i)]], Parent(i), tmp) else s[i := tmp]
  }

  function Pop(h: seq<Cmp>): (r: seq<Cmp>)
    ensures |r| == if |h| == 0 then 0 else |h| - 1
  {
    if |h| <= 1 then []
    else
      var s := h[0 := h[|h| - 1]][..|h| - 1];
      MoveDown(s, 0, s[0])
  }

  function Push(h: seq<Cmp>, cap: nat, e: Cmp): (r: seq<Cmp>)
    ensures |r| == if |h| >= cap then |h| else |h| + 1
  {
    if |h| >= cap then h else FloatUp(h + [e], |h|, e)
  }

  // ---- The heap order ----

  /** Candidates the comparison never ranks against their distances: of two that are nearer to each
      other than 1e-10 the nearer one has the smaller `x`. */
  ghost predicate NoConfusion(d: set<Cmp>) {
    forall a, b :: a in d && b in d && a.dist < b.dist ==> Less(a, b)
  }

  ghost predicate Within(s: seq<Cmp>, d: set<Cmp>) {
    forall i :: 0 <= i < |s| ==> s[i] in d
  }

  /** The order the comparison stands for: by distance, then by `x`. */
  ghost predicate Leq(a: Cmp, b: Cmp) {
    a.dist < b.dist || (a.dist == b.dist && a.point.x <= b.point.x)
  }

  lemma LessIsExact(a: Cmp, b: Cmp, d: set<Cmp>)
    requires NoConfusion(d) && a in d && b in d
    ensures Less(a, b) <==> !Leq(b, a)
  {
  }

  ghost predicate IsHeap(s: seq<Cmp>) {
    forall j :: 0 < j < |s| ==> Leq(s[j], s[Parent(j)])
  }

  /** A heap but for the hole at `i`, which lies between its father and its sons. */
  ghost predicate HoleAt(s: seq<Cmp>, i: nat)
    requires i < |s|
  {
    && (forall j :: 0 < j < |s| && j != i && Parent(j) != i ==> Leq(s[j], s[Parent(j)]))
    && (i > 0 ==> forall j :: 0 < j < |s| && Parent(j) == i ==> Leq(s[j], s[Parent(i)]))
  }

  ghost predicate AboveSons(s: seq<Cmp>, i: nat, tmp: Cmp)
    requires i < |s|
  {
    forall j :: 0 < j < |s| && Parent(j) == i ==> Leq(s[j], tmp)
  }

  lemma FillHole(s: seq<Cmp>, i: nat, tmp: Cmp)
    requires i < |s| && HoleAt(s, i) && AboveSons(s, i, tmp)
    requires i > 0 ==> Leq(tmp, s[Parent(i)])
    ensures IsHeap(s[i := tmp])
  {
  }

  lemma {:induction false} FloatUpHeap(s: seq<Cmp>, i: nat, tmp: Cmp, d: set<Cmp>)
    requires i < |s| && HoleAt(s, i) && AboveSons(s, i, tmp)
    requires NoConfusion(d) && Within(s, d) && tmp in d
    ensures IsHeap(FloatUp(s, i, tmp))
    decreases i
  {
    if i > 0 {
      var p := Parent(i);
      LessIsExact(s[p], tmp, d);
      if Less(s[p], tmp) {
        RaiseHole(s, i, tmp);
        FloatUpHeap(s[i := s[p]], p, tmp, d);
      } else {
        FillHole(s, i, tmp);
      }
    } else {
      FillHole(s, i, tmp);
    }
  }

  lemma RaiseHole(s: seq<Cmp>, i: nat, tmp: Cmp)
    requires 0 < i < |s| && HoleAt(s, i) && AboveSons(s, i, tmp) && Leq(s[Parent(i)], tmp)
    ensures HoleAt(s[i := s[Parent(i)]], Parent(i)) && AboveSons(s[i := s[Parent(i)]], Parent(i), tmp)
  {
    var p := Parent(i);
    var t := s[i := s[p]];
    forall j | 0 < j < |t| && j != p && Parent(j) != p ensures Leq(t[j], t[Parent(j)]) {
      assert j != i;
    }
    forall j | 0 < j < |t| && Parent(j) == p ensures Leq(t[j], tmp) {
      if j != i { assert Leq(s[j], s[p]); }
    }
    if p > 0 {
      assert Leq(s[p], s[Parent(p)]);
    }
  }

  lemma {:induction false} MoveDownHeap(s: seq<Cmp>, i: nat, tmp: Cmp, d: set<Cmp>)
    requires i < |s| && HoleAt(s, i) && (i > 0 ==> Leq(tmp, s[Parent(i)]))
    requires NoConfusion(d) && Within(s, d) && tmp in d
    ensures IsHeap(MoveDown(s, i, tmp))
    decreases |s| - i
  {
    hide IsHeap, HoleAt, AboveSons, Within, NoConfusion, Less, Leq, Parent;
    var l := 2 * i + 1;
    if l < |s| {
      var c := if l + 1 < |s| && Less(s[l], s[l + 1]) then l + 1 else l;
      ChosenSon(s, i, c, d);
      LargerSon(s, i, c);
      Sinking(s, i, c, tmp, d);
      if Less(tmp, s[c]) {
        LowerHole(s, i, c);
        MoveDownHeap(s[i := s[c]], c, tmp, d);
      } else {
        FillHole(s, i, tmp);
      }
    } else {
      NoSons(s, i, tmp);
      FillHole(s, i, tmp);
    }
  }

  lemma ChosenSon(s: seq<Cmp>, i: nat, c: nat, d: set<Cmp>)
    requires i < |s| && 2 * i + 1 < |s| && NoConfusion(d) && Within(s, d)
    requires c == if 2 * i + 2 < |s| && Less(s[2 * i + 1], s[2 * i + 2]) then 2 * i + 2 else 2 * i + 1
    ensures c == 2 * i + 1 && c + 1 < |s| ==> Leq(s[c + 1], s[c])
    ensures c == 2 * i + 2 ==> Leq(s[c - 1], s[c])
  {
    if 2 * i + 2 < |s| { LessIsExact(s[2 * i + 1], s[2 * i + 2], d); }
  }

  lemma Sinking(s: seq<Cmp>, i: nat, c: nat, tmp: Cmp, d: set<Cmp>)
    requires i < |s| && c < |s| && c > 0 && Parent(c) == i && NoConfusion(d) && Within(s, d) && tmp in d && AboveSons(s, i, s[c])
    ensures if Less(tmp, s[c]) then Leq(tmp, s[i := s[c]][Parent(c)]) && Within(s[i := s[c]], d)
            else AboveSons(s, i, tmp)
  {
    LessIsExact(tmp, s[c], d);
  }

  lemma NoSons(s: seq<Cmp>, i: nat, tmp: Cmp)
    requires i < |s| <= 2 * i + 1
    ensures AboveSons(s, i, tmp)
  {
  }

  lemma LargerSon(s: seq<Cmp>, i: nat, c: nat)
    requires i < |s| && 2 * i + 1 <= c <= 2 * i + 2 && c < |s|
    requires c == 2 * i + 1 && c + 1 < |s| ==> Leq(s[c + 1], s[c])
    requires c == 2 * i + 2 ==> Leq(s[c - 1], s[c])
    ensures AboveSons(s, i, s[c]) && Parent(c) == i
  {
    forall j | 0 < j < |s| && Parent(j) == i ensures Leq(s[j], s[c]) {
      assert j == 2 * i + 1 || j == 2 * i + 2;
    }
  }

  lemma LowerHole(s: seq<Cmp>, i: nat, c: nat)
    requires i < |s| && HoleAt(s, i) && 0 < c < |s| && Parent(c) == i && AboveSons(s, i, s[c])
    ensures HoleAt(s[i := s[c]], c)
  {
    var t := s[i := s[c]];
    forall j | 0 < j < |t| && j != c && Parent(j) != c ensures Leq(t[j], t[Parent(j)]) {
      if j == i {
        assert Leq(s[c], s[Parent(i)]);
      } else if Parent(j) == i {
        assert Leq(s[j], s[c]);
      }
    }
    forall j | 0 < j < |t| && Parent(j) == c ensures Leq(t[j], t[i]) {
      assert Leq(s[j], s[c]);
    }
  }

  // ---- Contents ----

  lemma {:induction false} MoveDownKeeps(s: seq<Cmp>, i: nat, tmp: Cmp)
    requires i < |s|
    ensures multiset(MoveDown(s, i, tmp)) == multiset(s[i := tmp])
    decreases |s| - i
  {
    var l := 2 * i + 1;
    if l < |s| {
      var c := if l + 1 < |s| && Less(s[l], s[l + 1]) then l + 1 else l;
      if Less(tmp, s[c]) {
        MoveDownKeeps(s[i := s[c]], c, tmp);
        MoveHole(s, i, c, tmp);
      }
    }
  }

  lemma {:induction false} FloatUpKeeps(s: seq<Cmp>, i: nat, tmp: Cmp)
    requires i < |s|
    ensures multiset(FloatUp(s, i, tmp)) == multiset(s[i := tmp])
    decreases i
  {
    if i > 0 && Less(s[Parent(i)], tmp) {
      FloatUpKeeps(s[i := s[Parent(i)]], Parent(i), tmp);
      MoveHole(s, i, Parent(i), tmp);
    }
  }

  lemma MoveHole(s: seq<Cmp>, i: nat, c: nat, tmp: Cmp)
    requires i < |s| && c < |s| && i != c
    ensures multiset(s[i := s[c]][c := tmp]) == multiset(s[i := tmp])
  {
    assert s[i := s[c]][c := tmp] == s[i := tmp][i := s[i := tmp][c]][c := s[i := tmp][i]];
  }

  lemma FromMultiset(s: seq<Cmp>, t: seq<Cmp>, e: Cmp, d: set<Cmp>)
    requires Within(s, d) && e in d && multiset(t) <= multiset(s) + multiset{e}
    ensures Within(t, d)
  {
    forall i | 0 <= i < |t| ensures t[i] in d {
      assert t[i] in multiset(t);
      assert t[i] in multiset(s) || t[i] == e;
    }
  }

  /** `push` on a heap that is not full adds the candidate. */
  lemma {:induction false} PushExact(h: seq<Cmp>, cap: nat, e: Cmp, d: set<Cmp>)
    requires IsHeap(h) && (NoConfusion(d) || h == []) && Within(h, d) && e in d && |h| < cap
    ensures IsHeap(Push(h, cap, e)) && multiset(Push(h, cap, e)) == multiset(h) + multiset{e}
    ensures Within(Push(h, cap, e), d)
  {
    var s := h + [e];
    assert s[|h| := e] == s;
    FloatUpKeeps(s, |h|, e);
    FromMultiset(h, Push(h, cap, e), e, d);
    if h != [] {
      NewLeaf(h, e);
      FloatUpHeap(s, |h|, e, d);
    }
  }

  lemma NewLeaf(h: seq<Cmp>, e: Cmp)
    requires IsHeap(h)
    ensures HoleAt(h + [e], |h|) && AboveSons(h + [e], |h|, e)
  {
  }

  /** `pop` removes exactly the top, which is a greatest candidate. */
  lemma {:induction false} PopExact(h: seq<Cmp>, d: set<Cmp>)
    requires IsHeap(h) && (NoConfusion(d) || |h| == 1) && Within(h, d) && |h| > 0
    ensures IsHeap(Pop(h)) && multiset(Pop(h)) + multiset{h[0]} == multiset(h) && Within(Pop(h), d)
  {
    if |h| > 1 {
      var n := |h| - 1;
      var s := h[0 := h[n]][..n];
      MoveDownKeeps(s, 0, s[0]);
      assert s[0 := s[0]] == s;
      TopGone(h);
      FromMultiset(h, Pop(h), h[0], d);
      assert Within(s, d);
      assert HoleAt(s, 0);
      MoveDownHeap(s, 0, s[0], d);
    } else {
      assert h == [h[0]];
    }
  }

  lemma TopGone(h: seq<Cmp>)
    requires |h| > 1
    ensures multiset(h[0 := h[|h| - 1]][..|h| - 1]) + multiset{h[0]} == multiset(h)
  {
    var n := |h| - 1;
    assert h == [h[0]] + h[1..n] + [h[n]];
    assert h[0 := h[n]][..n] == [h[n]] + h[1..n];
  }

  /** The top of a heap is a greatest candidate. */
  lemma {:induction false} TopIsGreatest(s: seq<Cmp>, j: nat)
    requires IsHeap(s) && j < |s|
    ensures Leq(s[j], s[0])
  {
    if j > 0 {
      TopIsGreatest(s, Parent(j));
    }
  }
}
