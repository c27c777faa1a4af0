/** `MANUAL_Q`: the ring buffer behind `Rebuild_Logger`. */
module OpQueue {

  const Q_LEN: nat := 1000000

  /** The queue after `push`: the new entry behind the old ones, unless the ring was full, when it
      also overwrites the entries a whole number of rounds before it. */
  ghost function Pushed<T>(s: seq<T>, op: T): (r: seq<T>)
    ensures |r| == |s| + 1
  {
    seq(|s| + 1, i requires 0 <= i <= |s| => if (|s| - i) % Q_LEN == 0 then op else s[i])
  }

  /** First in, first out, exactly as long as no entry still queued is overwritten. */
  lemma PushedIsFifoIff<T>(s: seq<T>, op: T)
    ensures Pushed(s, op) == s + [op] <==> forall i :: 0 <= i < |s| && (|s| - i) % Q_LEN == 0 ==> s[i] == op
    ensures |s| < 1000000 ==> Pushed(s, op) == s + [op]
    ensures |s| >= 1000000 ==> Pushed(s, op)[|s| - 1000000] == op
  {
    if forall i :: 0 <= i < |s| && (|s| - i) % Q_LEN == 0 ==> s[i] == op {
      assert Pushed(s, op) == s + [op];
    } else {
      var i :| 0 <= i < |s| && (|s| - i) % Q_LEN == 0 && s[i] != op;
      assert Pushed(s, op)[i] == op && (s + [op])[i] == s[i];
    }
    if |s| < Q_LEN {
      assert forall i :: 0 <= i < |s| ==> Pushed(s, op)[i] == s[i];
    }
  }

  function Slot(head: nat, i: nat): (r: nat)
    ensures r < Q_LEN
  {
    (head + i) % Q_LEN
  }

  lemma SameSlot(head: nat, i: nat, j: nat)
    requires i <= j
    ensures Slot(head, i) == Slot(head, j) <==> (j - i) % Q_LEN == 0
  {
    var a, b := head + i, head + j;
    assert a == Q_LEN * (a / Q_LEN) + a % Q_LEN;
    assert b == Q_LEN * (b / Q_LEN) + b % Q_LEN;
    assert j - i == Q_LEN * (b / Q_LEN - a / Q_LEN) + (b % Q_LEN - a % Q_LEN);
    if (j - i) % Q_LEN == 0 {
      assert j - i == Q_LEN * ((j - i) / Q_LEN);
    }
  }

  lemma NextSlot(head: nat, i: nat)
    ensures Slot(head, i + 1) == (Slot(head, i) + 1) % Q_LEN == Slot((head + 1) % Q_LEN, i)
  {
  }

  class ManualQ<T(0)> {
    var head: nat
    var tail: nat
    var counter: nat
    const q: array<T>
    var isEmpty: bool

    ghost predicate Valid()
      reads this
    {
      && q.Length == Q_LEN && head < Q_LEN && tail == Slot(head, counter)
      && (isEmpty <==> counter == 0)
    }

    /** The queued entries, oldest first. */
    ghost function Contents(): (s: seq<T>)
      reads this, q
      requires Valid()
      ensures |s| == counter
    {
      seq(counter, i requires 0 <= i reads this, q requires Valid() => q[Slot(head, i)])
    }

    /** As the tree's constructor leaves its logger: declared, then cleared. */
    constructor ()
      ensures Valid() && fresh(q) && Contents() == []
    {
      q := new T[Q_LEN];
      head, tail, counter, isEmpty := 0, 0, 0, true;
    }

    method Clear()
      requires Valid()
      modifies this
      ensures Valid() && Contents() == []
    {
      head, tail, counter, isEmpty := 0, 0, 0, true;
    }

    method Pop()
      requires Valid()
      modifies this
      ensures Valid() && Contents() == if old(Contents()) == [] then [] else old(Contents())[1..]
    {
      if counter == 0 { return; }
      ghost var before, h := Contents(), head;
      NextSlot(head, counter - 1);
      head := head + 1;
      head := head % Q_LEN;
      counter := counter - 1;
      if counter == 0 { isEmpty := true; }
      forall i: nat | i < counter ensures q[Slot(head, i)] == before[1..][i] {
        NextSlot(h, i);
        assert before[i + 1] == q[Slot(h, i + 1)];
      }
      assert Contents() == before[1..];
    }

    method Front() returns (op: T)
      requires Valid()
      ensures Contents() != [] ==> op == Contents()[0]
    {
      op := q[head];
    }

    method Push(op: T)
      requires Valid()
      modifies this, q
      ensures Valid() && Contents() == Pushed(old(Contents()), op)
    {
      ghost var before := Contents();
      q[tail] := op;
      counter := counter + 1;
      if isEmpty { isEmpty := false; }
      NextSlot(head, counter - 1);
      tail := tail + 1;
      tail := tail % Q_LEN;
      forall i: nat | i < counter ensures q[Slot(head, i)] == Pushed(before, op)[i] {
        SameSlot(head, i, |before|);
      }
      assert Contents() == Pushed(before, op);
    }

    method Empty() returns (b: bool)
      requires Valid()
      ensures b <==> Contents() == []
    {
      b := isEmpty;
    }

    method Size() returns (n: nat)
      requires Valid()
      ensures n == |Contents()|
    {
      n := counter;
    }
  }
}
