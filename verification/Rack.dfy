/** The RACK list: outstanding chunks in a doubly linked list by send time, and the scan
    that marks the overdue ones lost (section 6.2 of RFC 8985). */
module Rack {
  class Node {
    var since: int
    var acked: bool
    var abandoned: bool
    var retransmit: bool
    var nSent: nat
    var rackPrev: Node?
    var rackNext: Node?
    var rackInList: bool

    constructor (since: int)
      ensures this.since == since && !acked && !abandoned && !retransmit && nSent == 1 && Detached(this)
    {
      this.since, acked, abandoned, retransmit, nSent := since, false, false, false, 1;
      rackPrev, rackNext, rackInList := null, null, false;
    }
  }

  ghost predicate Detached(c: Node)
    reads c`rackInList, c`rackPrev, c`rackNext
  {
    !c.rackInList && c.rackPrev == null && c.rackNext == null
  }

  ghost function At(nodes: seq<Node>, i: int): Node? {
    if 0 <= i < |nodes| then nodes[i] else null
  }

  ghost predicate LinkedAt(nodes: seq<Node>, i: nat)
    requires i < |nodes|
    reads nodes`rackInList, nodes`rackPrev, nodes`rackNext
  {
    nodes[i].rackInList && nodes[i].rackPrev == At(nodes, i - 1) && nodes[i].rackNext == At(nodes, i + 1)
  }

  ghost predicate Distinct(nodes: seq<Node>) { forall i, j :: 0 <= i < j < |nodes| ==> nodes[i] != nodes[j] }

  ghost predicate Sorted(nodes: seq<Node>)
    reads nodes`since
  {
    forall i, j :: 0 <= i < j < |nodes| ==> nodes[i].since <= nodes[j].since
  }

  class List {
    var rackHead: Node?
    var rackTail: Node?
    ghost var nodes: seq<Node>

    ghost predicate Valid()
      reads this, nodes`rackInList, nodes`rackPrev, nodes`rackNext
    {
      && rackHead == At(nodes, 0) && rackTail == At(nodes, |nodes| - 1) && Distinct(nodes)
      && forall i :: 0 <= i < |nodes| ==> LinkedAt(nodes, i)
    }

    constructor ()
      ensures Valid() && nodes == []
    {
      rackHead, rackTail, nodes := null, null, [];
    }

    /** Appends a chunk that is not in the list; one that is stays where it is. */
    method Insert(c: Node)
      requires Valid() && (c in nodes || Detached(c))
      modifies this, c`rackPrev, c`rackInList, nodes`rackNext
      ensures Valid() && nodes == if c in old(nodes) then old(nodes) else old(nodes) + [c]
    {
      if c in nodes { ghost var k :| 0 <= k < |nodes| && nodes[k] == c; assert LinkedAt(nodes, k); }
      if c.rackInList { return; }
      if rackTail != null {
        assert LinkedAt(nodes, |nodes| - 1);
        rackTail.rackNext := c;
        c.rackPrev := rackTail;
      } else {
        rackHead := c;
      }
      rackTail := c;
      c.rackInList := true;
      nodes := nodes + [c];
      forall i | 0 <= i < |nodes| ensures LinkedAt(nodes, i) {
        if i < |nodes| - 1 { assert old(LinkedAt(nodes, i)); }
      }
    }

    /** Takes the chunk at place k out; a chunk that is not in the list is left alone. */
    method Remove(c: Node, ghost k: nat)
      requires Valid() && (Detached(c) || (k < |nodes| && nodes[k] == c))
      modifies this, nodes`rackPrev, nodes`rackNext, nodes`rackInList
      ensures Valid() && Detached(c)
      ensures nodes == if old(Detached(c)) then old(nodes) else old(nodes)[..k] + old(nodes)[k + 1..]
    {
      assert k < |nodes| && nodes[k] == c ==> LinkedAt(nodes, k);
      if !c.rackInList { return; }
      ghost var was := nodes;
      assert LinkedAt(nodes, k);
      if k > 0 { assert LinkedAt(nodes, k - 1); }
      if k + 1 < |nodes| { assert LinkedAt(nodes, k + 1); }
      if c.rackPrev != null { c.rackPrev.rackNext := c.rackNext; } else { rackHead := c.rackNext; }
      if c.rackNext != null { c.rackNext.rackPrev := c.rackPrev; } else { rackTail := c.rackPrev; }
      c.rackPrev, c.rackNext, c.rackInList := null, null, false;
      nodes := nodes[..k] + nodes[k + 1..];
      assert Distinct(nodes);
      forall i | 0 <= i < |nodes| ensures LinkedAt(nodes, i) {
        if i < k {
          assert nodes[i] == was[i] && old(LinkedAt(nodes, i));
        } else {
          assert nodes[i] == was[i + 1] && old(LinkedAt(nodes, i + 1));
        }
      }
    }

    /** A first transmission: with a clock that does not run back the list stays sorted. */
    method Sent(c: Node)
      requires Valid() && Sorted(nodes) && Detached(c) && c !in nodes && NoneAfter(nodes, c.since)
      modifies this, c`rackPrev, c`rackInList, nodes`rackNext
      ensures Valid() && Sorted(nodes) && nodes == old(nodes) + [c]
    {
      SortedEnd(nodes, c);
      Insert(c);
    }

    /** A retransmission at time now: the chunk, listed or not, is now the last one. */
    method Resent(c: Node, now: int, ghost k: nat)
      requires Valid() && Sorted(nodes) && NoneAfter(nodes, now)
      requires if c in nodes then k < |nodes| && nodes[k] == c else Detached(c)
      modifies this, c, nodes`rackPrev, nodes`rackNext, nodes`rackInList
      ensures Valid() && Sorted(nodes)
      ensures nodes == Without(old(nodes), c, k) + [c]
      ensures c.since == now && c.nSent == old(c.nSent) + 1 && !c.retransmit
    {
      ghost var rest := Without(nodes, c, k);
      RestFacts(nodes, c, k);
      hide LinkedAt, Distinct, Sorted, NoneAfter, Valid, Detached, Without;
      SetTime(c, now, rest);
      Requeue(c, k);
    }

    /** rackRemove, then rackInsert. */
    method Requeue(c: Node, ghost k: nat)
      requires Valid() && (if c in nodes then k < |nodes| && nodes[k] == c else Detached(c))
      modifies this, c`rackPrev, c`rackNext, c`rackInList, nodes`rackPrev, nodes`rackNext, nodes`rackInList
      ensures Valid() && nodes == Without(old(nodes), c, k) + [c]
    {
      assert c in nodes ==> LinkedAt(nodes, k) && !Detached(c) && c !in nodes[..k] + nodes[k + 1..];
      hide LinkedAt, Distinct;
      Remove(c, k);
      Insert(c);
    }

    method SetTime(c: Node, now: int, ghost rest: seq<Node>)
      requires c !in rest && Sorted(rest) && NoneAfter(rest, now)
      modifies c`since, c`nSent, c`retransmit
      ensures c.since == now && c.nSent == old(c.nSent) + 1 && !c.retransmit && Sorted(rest + [c])
    {
      c.retransmit, c.nSent, c.since := false, c.nSent + 1, now;
      SortedEnd(rest, c);
    }

    /** The scan of onRackAfterSACK and onRackTimeoutLocked: it may stop at the first
        candidate that is too new, and yet it marks exactly the listed chunks that are
        un-acked, not abandoned, unmarked, sent once and overdue. */
    method Scan(reoWnd: int, delivered: int) returns (marked: bool)
      requires Valid() && Sorted(nodes)
      modifies this, nodes`rackPrev, nodes`rackNext, nodes`rackInList, nodes`retransmit
      ensures Valid() && Sorted(nodes)
      ensures forall c | c in old(nodes) :: c.retransmit == (old(c.retransmit) || old(Lost(c, reoWnd, delivered)))
      ensures forall c | c in nodes :: c in old(nodes) && !old(Lost(c, reoWnd, delivered))
      ensures forall c | c in old(nodes) && c !in nodes ::
                Detached(c) && (c.acked || c.abandoned || old(Lost(c, reoWnd, delivered)))
      ensures marked <==> exists c | c in old(nodes) :: old(Lost(c, reoWnd, delivered))
    {
      hide LinkedAt, Detached;
      ghost var all := nodes;
      ghost var lost := set c | c in all && Lost(c, reoWnd, delivered);
      ghost var done := set c | c in all && (c.acked || c.abandoned);
      ghost var was := set c | c in all && c.retransmit;
      ghost var i, gone;
      marked, i, gone := ScanLoop(reoWnd, delivered, done, lost, was);
      NoneLeft(all, nodes, i, gone, done, lost, reoWnd, delivered);
    }

    /** The scan's invariant: the list is in order, and of the chunks it began with exactly
        those taken out as lost have been marked. */
    ghost predicate Scanning(all: seq<Node>, i: nat, gone: set<Node>, done: set<Node>, lost: set<Node>, was: set<Node>)
      reads this, nodes, all, gone
    {
      && Valid() && Sorted(nodes) && Scanned(all, nodes, i, gone, done, lost)
      && (forall c | c in gone :: Detached(c))
      && (forall c | c in all :: c.retransmit <==> c in was || c in gone * lost)
    }

    lemma {:induction false} ScanStarts(done: set<Node>, lost: set<Node>, was: set<Node>)
      requires Scanning(nodes, 0, {}, done, lost, was)
      ensures rackHead == At(nodes, 0)
    {
    }

    /** The loop itself: `gone` was taken out, and nothing from place i on is overdue. */
    method ScanLoop(reoWnd: int, delivered: int, ghost done: set<Node>, ghost lost: set<Node>, ghost was: set<Node>)
      returns (marked: bool, ghost i: nat, ghost gone: set<Node>)
      requires Scanning(nodes, 0, {}, done, lost, was) && Classified(nodes, done, lost, was, reoWnd, delivered)
      modifies this, nodes`rackPrev, nodes`rackNext, nodes`rackInList, nodes`retransmit
      ensures Scanning(old(nodes), i, gone, done, lost, was)
      ensures marked <==> gone * lost != {}
      ensures i < |nodes| ==> !(nodes[i].since + reoWnd < delivered)
    {
      hide Scanning, Classified;
      marked, i, gone := false, 0, {};
      ghost var all := nodes;
      ScanStarts(done, lost, was);
      var chunk := rackHead;
      while chunk != null
        invariant Scanning(all, i, gone, done, lost, was) && chunk == At(nodes, i)
        invariant Classified(all, done, lost, was, reoWnd, delivered)
        invariant forall k :: 0 <= k < |nodes| ==> nodes[k] in all
        invariant marked <==> gone * lost != {}
        decreases |nodes| - i
      {
        var stop, hit;
        chunk, stop, hit, i, gone := Visit(chunk, reoWnd, delivered, all, i, gone, done, lost, was);
        marked := marked || hit;
        if stop { break; }
      }
    }

    /** One chunk of the list. */
    method Visit(c: Node, reoWnd: int, delivered: int, ghost all: seq<Node>, ghost i: nat, ghost gone: set<Node>,
                 ghost done: set<Node>, ghost lost: set<Node>, ghost was: set<Node>)
      returns (next: Node?, stop: bool, hit: bool, ghost i': nat, ghost gone': set<Node>)
      requires Scanning(all, i, gone, done, lost, was) && Classified(all, done, lost, was, reoWnd, delivered)
      requires i < |nodes| && nodes[i] == c
      modifies this, nodes`rackPrev, nodes`rackNext, nodes`rackInList, c`retransmit
      ensures Scanning(all, i', gone', done, lost, was) && (forall k :: 0 <= k < |nodes| ==> nodes[k] in all)
      ensures gone' * lost == gone * lost + if hit then {c} else {}
      ensures stop ==> i' < |nodes| && !(nodes[i'].since + reoWnd < delivered)
      ensures !stop ==> next == At(nodes, i') && i' <= |nodes| && |nodes| - i' < |old(nodes)| - i
    {
      hide Sorted, Distinct, LinkedAt, Detached, Valid;
      next := Next(c, i);
      stop, hit, i', gone' := false, false, i, gone;
      assert c in all && c !in gone;
      if c.acked || c.abandoned {
        ScannedOut(all, nodes, i, gone, done, lost);
        TakeOut(c, i, false);
        gone' := gone + {c};
        return;
      }
      if c.retransmit || c.nSent > 1 {
        i' := i + 1;
        return;
      }
      if !(c.since + reoWnd < delivered) {
        stop := true;
        return;
      }
      ScannedOut(all, nodes, i, gone, done, lost);
      TakeOut(c, i, true);
      hit := true;
      gone' := gone + {c};
    }

    method TakeOut(c: Node, ghost i: nat, mark: bool)
      requires Valid() && Sorted(nodes) && i < |nodes| && nodes[i] == c
      modifies this, nodes`rackPrev, nodes`rackNext, nodes`rackInList, c`retransmit
      ensures Valid() && Sorted(nodes) && nodes == old(nodes)[..i] + old(nodes)[i + 1..] && Detached(c)
      ensures c.retransmit == (old(c.retransmit) || mark)
    {
      assert LinkedAt(nodes, i);
      SortedOut(nodes, i);
      hide Sorted, Distinct, LinkedAt;
      if mark { c.retransmit := true; }
      Remove(c, i);
    }

    method Next(chunk: Node, ghost i: nat) returns (next: Node?)
      requires Valid() && i < |nodes| && nodes[i] == chunk
      ensures next == At(nodes, i + 1) && chunk.rackInList
      ensures i + 1 < |nodes| ==> next == (nodes[..i] + nodes[i + 1..])[i]
    {
      assert LinkedAt(nodes, i);
      next := chunk.rackNext;
    }
  }

  /** Where the scan stands: `gone` was taken out, rightly, and what it passed and kept is
      not lost. */
  ghost predicate Scanned(all: seq<Node>, nodes: seq<Node>, i: nat, gone: set<Node>, done: set<Node>, lost: set<Node>) {
    && Distinct(nodes) && i <= |nodes|
    && (forall c | c in all :: c in nodes || c in gone)
    && (forall c | c in nodes :: c in all)
    && (forall c | c in gone :: c in all && c !in nodes)
    && gone <= done + lost
    && (forall k :: 0 <= k < i ==> nodes[k] !in lost)
  }

  /** The three sets the scan is proved against. */
  ghost predicate Classified(all: seq<Node>, done: set<Node>, lost: set<Node>, was: set<Node>, reoWnd: int, delivered: int)
    reads all`acked, all`abandoned, all`nSent, all`since
  {
    forall c | c in all ::
      && (c in done <==> c.acked || c.abandoned)
      && (c in lost <==> !c.acked && !c.abandoned && c !in was && c.nSent <= 1 && c.since + reoWnd < delivered)
  }

  lemma {:induction false} ScannedOut(all: seq<Node>, nodes: seq<Node>, i: nat, gone: set<Node>, done: set<Node>, lost: set<Node>)
    requires Scanned(all, nodes, i, gone, done, lost) && i < |nodes| && nodes[i] in done + lost
    ensures Scanned(all, nodes[..i] + nodes[i + 1..], i, gone + {nodes[i]}, done, lost)
  {
    var r := nodes[..i] + nodes[i + 1..];
    assert nodes == nodes[..i] + [nodes[i]] + nodes[i + 1..];
    assert forall c | c in nodes :: c in r || c == nodes[i];
    assert nodes[i] !in r;
  }

  /** Sorted by send time, everything behind a chunk that is too new is too new. */
  lemma {:induction false} NoneLeft(all: seq<Node>, nodes: seq<Node>, i: nat, gone: set<Node>, done: set<Node>, lost: set<Node>, reoWnd: int, delivered: int)
    requires Scanned(all, nodes, i, gone, done, lost) && Sorted(nodes)
    requires i < |nodes| ==> !(nodes[i].since + reoWnd < delivered)
    requires forall c | c in lost :: c in all && c.since + reoWnd < delivered
    ensures forall c | c in nodes :: c in all && c !in lost
    ensures forall c | c in all :: c in gone <==> c !in nodes
    ensures lost <= gone && gone <= done + lost
  {
    forall c | c in nodes ensures c !in lost {
      var k :| 0 <= k < |nodes| && nodes[k] == c;
      if k > i { assert nodes[i].since <= nodes[k].since; }
    }
  }

  ghost predicate NoneAfter(nodes: seq<Node>, now: int)
    reads nodes`since
  {
    forall i :: 0 <= i < |nodes| ==> nodes[i].since <= now
  }

  /** The list without the chunk at place k, or the list itself if the chunk is not in it. */
  ghost function Without(nodes: seq<Node>, c: Node, k: nat): seq<Node> {
    if k < |nodes| && nodes[k] == c then nodes[..k] + nodes[k + 1..] else nodes
  }

  lemma {:induction false} RestFacts(nodes: seq<Node>, c: Node, k: nat)
    requires Distinct(nodes) && Sorted(nodes) && (c in nodes ==> k < |nodes| && nodes[k] == c)
    ensures var rest := Without(nodes, c, k);
            c !in rest && Sorted(rest) && forall now :: NoneAfter(nodes, now) ==> NoneAfter(rest, now)
  {
    if c in nodes { SortedOut(nodes, k); }
  }

  lemma {:induction false} SortedEnd(nodes: seq<Node>, c: Node)
    requires Sorted(nodes) && NoneAfter(nodes, c.since)
    ensures Sorted(nodes + [c])
  {
  }

  lemma {:induction false} SortedOut(nodes: seq<Node>, i: nat)
    requires Sorted(nodes) && i < |nodes|
    ensures Sorted(nodes[..i] + nodes[i + 1..])
  {
  }

  /** A chunk the scan is to mark. */
  ghost predicate Lost(c: Node, reoWnd: int, delivered: int)
    reads c
  {
    !c.acked && !c.abandoned && !c.retransmit && c.nSent <= 1 && c.since + reoWnd < delivered
  }
}
