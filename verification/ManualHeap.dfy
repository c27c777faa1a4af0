/** The array form of `MANUAL_HEAP`, proved against its operations on sequences. */
module ManualHeap {
  import opened Geometry
  import opened Heap
  import opened Tree

  class CmpHeap {
    const heap: array<Cmp>
    const cap: nat
    var heapSize: nat

    ghost predicate Valid()
      reads this
    {
      heap.Length == cap && heapSize <= cap
    }

    /** The stored candidates in array order. */
    ghost function Contents(): (s: seq<Cmp>)
      reads this, heap
      requires Valid()
    {
      heap[..heapSize]
    }

    constructor (maxCapacity: nat)
      ensures Valid() && fresh(heap) && cap == maxCapacity && Contents() == []
    {
      cap := maxCapacity;
      heap := new Cmp[maxCapacity](_ => Cmp(Point(0.0, 0.0, 0.0, 0.0), 0.0));
      heapSize := 0;
    }

    method Clear()
      requires Valid()
      modifies this
      ensures Valid() && Contents() == []
    {
      heapSize := 0;
    }

    /** `size()`. */
    function Count(): (n: nat)
      reads this
    {
      heapSize
    }

    lemma Counted()
      requires Valid()
      ensures Count() == |Contents()|
    {
    }

    /** `top().dist`; a slot never filled holds INFINITY. */
    method TopDist() returns (d: Ext)
      requires Valid()
      ensures d == Top(Contents())
    {
      d := if heapSize == 0 then Infinity else Fin(heap[0].dist);
    }

    method TopCandidate() returns (c: Cmp)
      requires Valid() && heapSize > 0
      ensures c == Contents()[0]
    {
      c := heap[0];
    }

    method PopTop()
      requires Valid()
      modifies this, heap
      ensures Valid() && Contents() == Pop(old(Contents()))
    {
      if heapSize == 0 { return; }
      ghost var h := Contents();
      heap[0] := heap[heapSize - 1];
      heapSize := heapSize - 1;
      if heapSize > 0 {
        assert Contents() == h[0 := h[|h| - 1]][..|h| - 1];
        SinkFrom(0);
      }
    }

    method PushCandidate(c: Cmp)
      requires Valid()
      modifies this, heap
      ensures Valid() && Contents() == Push(old(Contents()), cap, c)
    {
      if heapSize >= cap { return; }
      ghost var h := Contents();
      heap[heapSize] := c;
      assert heap[..heapSize + 1] == h + [c];
      RiseFrom(heapSize);
      heapSize := heapSize + 1;
    }

    /** `MoveDown`. */
    method SinkFrom(start: nat)
      requires Valid() && start < heapSize
      modifies heap
      ensures Contents() == MoveDown(old(Contents()), start, old(heap[start]))
    {
      hide Less;
      var i := start;
      var l := i * 2 + 1;
      var tmp := heap[i];
      ghost var goal := MoveDown(Contents(), i, tmp);
      while l < heapSize
        invariant i < heapSize && l == i * 2 + 1
        invariant MoveDown(Contents(), i, tmp) == goal
        decreases heapSize - i
      {
        if l + 1 < heapSize && Less(heap[l], heap[l + 1]) {
          l := l + 1;
        }
        ghost var s := Contents();
        assert s[l] == heap[l];
        if Less(tmp, heap[l]) {
          heap[i] := heap[l];
          assert Contents() == s[i := s[l]];
          i := l;
          l := i * 2 + 1;
        } else {
          assert goal == s[i := tmp];
          break;
        }
      }
      ghost var s := Contents();
      heap[i] := tmp;
      assert Contents() == s[i := tmp];
    }

    /** `FloatUp`, on the array including the slot at `start`. */
    method RiseFrom(start: nat)
      requires Valid() && start < cap
      modifies heap
      ensures heap[..start + 1] == FloatUp(old(heap[..start + 1]), start, old(heap[start]))
    {
      hide Less;
      var n := start + 1;
      var i := start;
      var tmp := heap[i];
      ghost var goal := FloatUp(heap[..n], i, tmp);
      while i > 0
        invariant i < n
        invariant FloatUp(heap[..n], i, tmp) == goal
      {
        var ancestor := (i - 1) / 2;
        ghost var s := heap[..n];
        assert s[ancestor] == heap[ancestor] && ancestor == Parent(i);
        if Less(heap[ancestor], tmp) {
          heap[i] := heap[ancestor];
          assert heap[..n] == s[i := s[ancestor]];
          i := ancestor;
        } else {
          break;
        }
      }
      ghost var s := heap[..n];
      heap[i] := tmp;
      assert heap[..n] == s[i := tmp];
    }
  }
}
