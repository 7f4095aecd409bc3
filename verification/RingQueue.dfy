/** The growable ring under the in-flight queue, refined against a plain sequence. */
module RingQueue {
  import Serial

  const MIN_CAP: nat := 16

  /** (head + i) mod cap, for an index inside the ring. */
  function Slot(head: nat, i: nat, cap: nat): (k: nat)
    requires head < cap && i <= cap
    ensures k < cap && k == if head + i < cap then head + i else head + i - cap
  {
    SlotValue(head, i, cap);
    (head + i) % cap
  }

  lemma {:induction false} SlotValue(head: nat, i: nat, cap: nat)
    requires head < cap && i <= cap
    ensures (head + i) % cap == if head + i < cap then head + i else head + i - cap
  {
    if head + i < cap {
      Serial.ModUnique(head + i, cap, 0, head + i);
    } else {
      Serial.ModUnique(head + i, cap, 1, head + i - cap);
    }
  }

  class Queue<T(0)> {
    var buf: array<T>
    var head: nat
    var tail: nat
    var count: nat
    /** The queue as a list. */
    ghost var items: seq<T>

    ghost predicate Valid()
      reads this, buf
    {
      && 0 < buf.Length && head < buf.Length && tail < buf.Length
      && count == |items| <= buf.Length
      && tail == Slot(head, count, buf.Length)
      && (forall i :: 0 <= i < count ==> buf[Slot(head, i, buf.Length)] == items[i])
    }

    constructor (capacity: nat)
      ensures Valid() && fresh(buf) && items == []
      ensures buf.Length >= MIN_CAP && buf.Length >= capacity
    {
      var queueCap := MIN_CAP;
      while queueCap < capacity
        invariant queueCap >= MIN_CAP
        decreases capacity - queueCap
      {
        queueCap := 2 * queueCap;
      }
      buf := new T[queueCap];
      head, tail, count, items := 0, 0, 0, [];
    }

    method Len() returns (n: nat)
      requires Valid()
      ensures n == |items|
    {
      n := count;
    }

    method PushBack(ele: T)
      requires Valid()
      modifies this, buf
      ensures Valid() && items == old(items) + [ele]
      ensures buf == old(buf) || fresh(buf)
    {
      GrowIfFull();
      buf[tail] := ele;
      tail := Slot(tail, 1, buf.Length);
      count := count + 1;
      items := items + [ele];
    }

    method PopFront() returns (ele: T)
      requires Valid() && items != []
      modifies this, buf
      ensures Valid() && buf == old(buf)
      ensures ele == old(items)[0] && items == old(items)[1..]
    {
      ele := buf[head];
      var zeroVal: T := *;
      buf[head] := zeroVal;
      head := Slot(head, 1, buf.Length);
      count := count - 1;
      items := items[1..];
      assert forall i :: 0 <= i < count ==> Slot(head, i, buf.Length) == Slot(old(head), i + 1, buf.Length);
    }

    method Front() returns (ele: T)
      requires Valid() && items != []
      ensures ele == items[0]
    {
      assert Slot(head, 0, buf.Length) == head;
      ele := buf[head];
    }

    method Back() returns (ele: T)
      requires Valid() && items != []
      ensures ele == items[|items| - 1]
    {
      assert Slot(tail, buf.Length - 1, buf.Length) == Slot(head, count - 1, buf.Length);
      ele := buf[Slot(tail, buf.Length - 1, buf.Length)];
    }

    method At(i: nat) returns (ele: T)
      requires Valid() && i < |items|
      ensures ele == items[i]
    {
      ele := buf[Slot(head, i, buf.Length)];
    }

    /** Doubles a full ring, laying the elements out from the start. */
    method GrowIfFull()
      requires Valid()
      modifies this
      ensures Valid() && items == old(items) && count < buf.Length
      ensures buf == old(buf) || fresh(buf)
    {
      if count < buf.Length {
        return;
      }
      var newBuf := new T[2 * count];
      // A full ring has tail at head, so the code's first branch, for tail behind head,
      // is not taken here: two copies, head to the end and the start to tail.
      var n := buf.Length - head;
      var i := 0;
      while i < n
        invariant 0 <= i <= n
        invariant forall j :: 0 <= j < i ==> newBuf[j] == items[j]
        modifies newBuf
      {
        assert Slot(head, i, buf.Length) == head + i;
        newBuf[i] := buf[head + i];
        i := i + 1;
      }
      i := 0;
      while i < tail
        invariant 0 <= i <= tail
        invariant forall j :: 0 <= j < n + i ==> newBuf[j] == items[j]
        modifies newBuf
      {
        assert Slot(head, n + i, buf.Length) == i;
        newBuf[n + i] := buf[i];
        i := i + 1;
      }
      head, tail, buf := 0, count, newBuf;
      assert forall j :: 0 <= j < count ==> Slot(0, j, buf.Length) == j;
    }
  }
}
