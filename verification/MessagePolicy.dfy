/** The pending queue without interleaving: ordered and unordered messages in two queues,
    and once a message has been begun it is sent to its end. */
module MessagePolicy {
  import opened Options
  import opened PolicyErrors

  datatype Chunk = Chunk(msg: nat, index: nat, unordered: bool, first: bool, last: bool, len: nat)

  /** What comes after place i fits: a new message after an end, the same message else. */
  ghost predicate Joint(cs: seq<Chunk>, i: nat)
    requires i + 1 < |cs|
  {
    if cs[i].last then cs[i + 1].first
    else !cs[i + 1].first && cs[i + 1].msg == cs[i].msg && cs[i + 1].unordered == cs[i].unordered
  }

  /** Messages one after the other, the first and the last perhaps in part. */
  ghost predicate Seamless(cs: seq<Chunk>) { forall i :: 0 <= i < |cs| - 1 ==> Joint(cs, i) }

  /** One whole message. */
  ghost predicate Message(cs: seq<Chunk>) {
    && cs != [] && cs[0].first && cs[|cs| - 1].last
    && (forall i :: 0 <= i < |cs| - 1 ==> !cs[i].last)
    && (forall i :: 0 <= i < |cs| ==> cs[i].msg == cs[0].msg && cs[i].unordered == cs[0].unordered && (i > 0 ==> !cs[i].first))
  }

  function Class(cs: seq<Chunk>, unordered: bool): seq<Chunk> {
    if cs == [] then []
    else
      var before, c := Class(cs[..|cs| - 1], unordered), cs[|cs| - 1];
      if c.unordered == unordered then before + [c] else before
  }

  function TotalLen(cs: seq<Chunk>): nat {
    if cs == [] then 0 else TotalLen(cs[..|cs| - 1]) + cs[|cs| - 1].len
  }

  lemma {:induction false} TotalLenAppend(a: seq<Chunk>, b: seq<Chunk>)
    ensures TotalLen(a + b) == TotalLen(a) + TotalLen(b)
  {
    if b == [] {
      assert a + b == a;
    } else {
      assert (a + b)[..|a + b| - 1] == a + b[..|b| - 1];
      TotalLenAppend(a, b[..|b| - 1]);
    }
  }

  lemma {:induction false} SeamlessAppend(a: seq<Chunk>, b: seq<Chunk>)
    requires Seamless(a) && Seamless(b)
    requires a != [] && b != [] ==> a[|a| - 1].last && b[0].first
    ensures Seamless(a + b)
  {
    var c := a + b;
    forall i | 0 <= i < |c| - 1 ensures Joint(c, i) {
      if i < |a| - 1 { assert Joint(a, i); }
      if i >= |a| { assert Joint(b, i - |a|); }
    }
  }

  lemma {:induction false} MessageSeamless(m: seq<Chunk>)
    requires Message(m)
    ensures Seamless(m)
  {
    forall i | 0 <= i < |m| - 1 ensures Joint(m, i) { assert m[i + 1].msg == m[0].msg; }
  }

  /** A queue starts with a new message unless it is the selected one, and ends with the
      end of one. */
  ghost predicate QueueOk(q: seq<Chunk>, unordered: bool, open: bool) {
    && Seamless(q) && (q != [] ==> q[|q| - 1].last)
    && (forall i :: 0 <= i < |q| ==> q[i].unordered == unordered)
    && (if open then q != [] && !q[0].first else q != [] ==> q[0].first)
  }

  lemma {:induction false} QueueAppend(q: seq<Chunk>, m: seq<Chunk>, unordered: bool, open: bool)
    requires QueueOk(q, unordered, open) && Message(m) && m[0].unordered == unordered
    ensures QueueOk(q + m, unordered, open)
  {
    MessageSeamless(m);
    SeamlessAppend(q, m);
    hide Seamless;
  }

  /** Taking the head leaves the queue open exactly if it did not end its message. */
  lemma {:induction false} QueueRest(q: seq<Chunk>, unordered: bool, open: bool)
    requires QueueOk(q, unordered, open) && q != []
    ensures QueueOk(q[1..], unordered, !q[0].last)
    ensures !q[0].last ==> q[1].msg == q[0].msg
  {
    if |q| > 1 { assert Joint(q, 0); }
    forall i | 0 <= i < |q[1..]| - 1 ensures Joint(q[1..], i) { assert Joint(q, i + 1); }
  }

  lemma {:induction false} OutNext(out: seq<Chunk>, c: Chunk)
    requires Seamless(out)
    requires out != [] ==> var p := out[|out| - 1];
                           if p.last then c.first else !c.first && c.msg == p.msg && c.unordered == p.unordered
    ensures Seamless(out + [c])
  {
    forall i | 0 <= i < |out + [c]| - 1 ensures Joint(out + [c], i) {
      if i < |out| - 1 { assert Joint(out, i); }
    }
  }

  lemma {:induction false} ClassNext(out: seq<Chunk>, c: Chunk, unordered: bool)
    ensures Class(out + [c], unordered) == Class(out, unordered) + if c.unordered == unordered then [c] else []
  {
    assert (out + [c])[..|out|] == out;
  }

  /** Both queues are in order, and the chunks sent run on into the queue of the message that
      is open. */
  ghost predicate Ready(u: seq<Chunk>, o: seq<Chunk>, selected: bool, unorderedIsSelected: bool, out: seq<Chunk>) {
    && QueueOk(u, true, selected && unorderedIsSelected)
    && QueueOk(o, false, selected && !unorderedIsSelected)
    && Seamless(out)
    && (selected <==> out != [] && !out[|out| - 1].last)
    && (selected ==>
          var q := if unorderedIsSelected then u else o;
          q != [] && q[0].msg == out[|out| - 1].msg && out[|out| - 1].unordered == unorderedIsSelected)
  }

  /** The chunk that is next. */
  function Head(u: seq<Chunk>, o: seq<Chunk>, selected: bool, unorderedIsSelected: bool): Option<Chunk> {
    if selected then First(if unorderedIsSelected then u else o)
    else if u != [] then Some(u[0])
    else First(o)
  }

  function First(q: seq<Chunk>): Option<Chunk> { if q == [] then None else Some(q[0]) }

  /** The chunk is gone from its queue, and its class is selected until its message ends. */
  ghost predicate Popped(c: Chunk, u: seq<Chunk>, o: seq<Chunk>, u': seq<Chunk>, o': seq<Chunk>, selected: bool, unorderedIsSelected: bool) {
    && (if c.unordered then u != [] && u' == u[1..] && o' == o else o != [] && u' == u && o' == o[1..])
    && selected == !c.last && (selected ==> unorderedIsSelected == c.unordered)
  }

  /** A chunk that pop takes: the next one of the open message, or the first of either queue
      if it begins one. */
  ghost predicate Offered(u: seq<Chunk>, o: seq<Chunk>, selected: bool, unorderedIsSelected: bool, c: Chunk) {
    if selected then (if unorderedIsSelected then u != [] && u[0] == c else o != [] && o[0] == c)
    else c.first && if c.unordered then u != [] && u[0] == c else o != [] && o[0] == c
  }

  lemma {:induction false} HeadOffered(u: seq<Chunk>, o: seq<Chunk>, sel: bool, us: bool, out: seq<Chunk>, c: Chunk)
    requires Ready(u, o, sel, us, out) && Head(u, o, sel, us) == Some(c)
    ensures Offered(u, o, sel, us, c)
  {
    hide Seamless;
  }

  lemma {:induction false} OfferedFits(u: seq<Chunk>, o: seq<Chunk>, sel: bool, us: bool, out: seq<Chunk>, c: Chunk)
    requires Ready(u, o, sel, us, out) && Offered(u, o, sel, us, c)
    ensures if c.unordered then u != [] && u[0] == c else o != [] && o[0] == c
    ensures sel ==> us == c.unordered
    ensures Seamless(out + [c])
  {
    hide Seamless;
    OutNext(out, c);
  }

  lemma {:induction false} PopReady(u: seq<Chunk>, o: seq<Chunk>, sel: bool, us: bool, out: seq<Chunk>, c: Chunk,
                                    u': seq<Chunk>, o': seq<Chunk>, sel': bool, us': bool)
    requires Ready(u, o, sel, us, out) && Offered(u, o, sel, us, c) && Popped(c, u, o, u', o', sel', us')
    ensures Ready(u', o', sel', us', out + [c])
  {
    hide Seamless;
    OfferedFits(u, o, sel, us, out, c);
    if c.unordered { QueueRest(u, true, sel && us); } else { QueueRest(o, false, sel && !us); }
  }

  class PendingQueue {
    var unorderedQueue: seq<Chunk>
    var orderedQueue: seq<Chunk>
    var selected: bool
    var unorderedIsSelected: bool
    var nBytes: int
    var nChunks: int

    /** Everything pushed of each class, and everything popped, so far. */
    ghost var pushedUnordered: seq<Chunk>
    ghost var pushedOrdered: seq<Chunk>
    ghost var out: seq<Chunk>

    ghost predicate Valid()
      reads this
    {
      && Ready(unorderedQueue, orderedQueue, selected, unorderedIsSelected, out)
      && pushedUnordered == Class(out, true) + unorderedQueue
      && pushedOrdered == Class(out, false) + orderedQueue
      && nChunks == |unorderedQueue| + |orderedQueue|
      && nBytes == TotalLen(unorderedQueue) + TotalLen(orderedQueue)
    }

    constructor ()
      ensures Valid() && out == [] && pushedOrdered == [] && pushedUnordered == []
    {
      unorderedQueue, orderedQueue, selected, unorderedIsSelected := [], [], false, false;
      nBytes, nChunks := 0, 0;
      pushedUnordered, pushedOrdered, out := [], [], [];
    }

    /** A message is pushed chunk by chunk under one lock. */
    method PushMessage(m: seq<Chunk>)
      requires Valid() && Message(m)
      modifies this`unorderedQueue, this`orderedQueue, this`nBytes, this`nChunks, this`pushedUnordered, this`pushedOrdered
      ensures Valid()
      ensures pushedUnordered == old(pushedUnordered) + if m[0].unordered then m else []
      ensures pushedOrdered == old(pushedOrdered) + if m[0].unordered then [] else m
    {
      hide Seamless, Class, QueueOk, TotalLen;
      ghost var u0, o0 := unorderedQueue, orderedQueue;
      if m[0].unordered {
        QueueAppend(unorderedQueue, m, true, selected && unorderedIsSelected);
      } else {
        QueueAppend(orderedQueue, m, false, selected && !unorderedIsSelected);
      }
      assert m[..0] == [];
      for i := 0 to |m|
        modifies this`unorderedQueue, this`orderedQueue, this`nBytes, this`nChunks
        invariant unorderedQueue == u0 + if m[0].unordered then m[..i] else []
        invariant orderedQueue == o0 + if m[0].unordered then [] else m[..i]
        invariant nChunks == |unorderedQueue| + |orderedQueue|
        invariant nBytes == TotalLen(unorderedQueue) + TotalLen(orderedQueue)
      {
        Push(m[i]);
        assert m[..i + 1] == m[..i] + [m[i]];
      }
      assert m[..|m|] == m;
      pushedUnordered := pushedUnordered + if m[0].unordered then m else [];
      pushedOrdered := pushedOrdered + if m[0].unordered then [] else m;
    }

    method Push(c: Chunk)
      modifies this`unorderedQueue, this`orderedQueue, this`nBytes, this`nChunks
      ensures unorderedQueue == old(unorderedQueue) + if c.unordered then [c] else []
      ensures orderedQueue == old(orderedQueue) + if c.unordered then [] else [c]
      ensures nChunks == old(nChunks) + 1
      ensures nBytes - TotalLen(unorderedQueue) - TotalLen(orderedQueue) ==
              old(nBytes) - TotalLen(old(unorderedQueue)) - TotalLen(old(orderedQueue))
    {
      assert (unorderedQueue + [c])[..|unorderedQueue|] == unorderedQueue;
      assert (orderedQueue + [c])[..|orderedQueue|] == orderedQueue;
      if c.unordered {
        unorderedQueue := unorderedQueue + [c];
      } else {
        orderedQueue := orderedQueue + [c];
      }
      nBytes := nBytes + c.len;
      nChunks := nChunks + 1;
    }

    /** The open message goes on; otherwise unordered messages go first. There is a next chunk
        as long as anything is queued. */
    function Peek(): (r: Option<Chunk>)
      reads this
      ensures !selected && unorderedQueue != [] ==> r == Some(unorderedQueue[0])
      ensures !selected && unorderedQueue == [] && orderedQueue != [] ==> r == Some(orderedQueue[0])
      ensures selected && unorderedIsSelected && unorderedQueue != [] ==> r == Some(unorderedQueue[0])
      ensures selected && !unorderedIsSelected && orderedQueue != [] ==> r == Some(orderedQueue[0])
      ensures Valid() ==> (r == None <==> unorderedQueue == [] && orderedQueue == [])
    {
      Head(unorderedQueue, orderedQueue, selected, unorderedIsSelected)
    }

    /** Pop takes what Peek returns, and in general a chunk that is next in the open message or
        begins one at the head of its queue: it is sent next, so every message is sent whole
        and in one piece, and each class in the order it was pushed. Any other chunk is an
        error; unless it is refused outright, the head of the queue looked at is then lost. */
    method Pop(c: Chunk) returns (err: Error)
      requires Valid()
      modifies this`unorderedQueue, this`orderedQueue, this`selected, this`unorderedIsSelected, this`nBytes, this`nChunks, this`out
      ensures old(Peek()) == Some(c) ==> err == NoError
      ensures err == NoError <==> Offered(old(unorderedQueue), old(orderedQueue), old(selected), old(unorderedIsSelected), c)
      ensures err == NoError ==> Valid() && out == old(out) + [c]
      ensures err == NoError ==> nChunks == old(nChunks) - 1 && nBytes == old(nBytes) - c.len
      ensures err != NoError ==>
                Lost(err, c, old(unorderedQueue), old(orderedQueue), old(selected), old(unorderedIsSelected))
                && out == old(out) && nChunks == old(nChunks) && nBytes == old(nBytes)
      ensures err != NoError ==> (Valid() <==> unorderedQueue == old(unorderedQueue) && orderedQueue == old(orderedQueue))
      ensures pushedOrdered == old(pushedOrdered) && pushedUnordered == old(pushedUnordered)
    {
      hide Ready, Class, TotalLen, Popped, Offered;
      ghost var u, o, s, us := unorderedQueue, orderedQueue, selected, unorderedIsSelected;
      if Peek() == Some(c) { HeadOffered(u, o, s, us, out, c); }
      err := PopPolicy(c);
      if err != NoError { return; }
      OfferedFits(u, o, s, us, out, c);
      PopReady(u, o, s, us, out, c, unorderedQueue, orderedQueue, selected, unorderedIsSelected);
      PopCounts(c, u, o, unorderedQueue, orderedQueue, selected, unorderedIsSelected, out);
      nBytes := if nBytes - c.len < 0 then 0 else nBytes - c.len;
      nChunks := nChunks - 1;
      out := out + [c];
    }

    /** What a failed pop leaves: all as it was if no message is open and the chunk begins none,
        else the queue it looked at without its head. */
    ghost predicate Lost(err: Error, c: Chunk, u: seq<Chunk>, o: seq<Chunk>, wasSelected: bool, wasUnordered: bool)
      reads this`unorderedQueue, this`orderedQueue, this`selected, this`unorderedIsSelected
    {
      && selected == wasSelected && unorderedIsSelected == wasUnordered
      && if !wasSelected && !c.first then err == UnexpectedState && unorderedQueue == u && orderedQueue == o
         else if (if wasSelected then wasUnordered else c.unordered)
         then err == UnexpectedUnordered && orderedQueue == o && unorderedQueue == if u == [] then [] else u[1..]
         else err == UnexpectedOrdered && unorderedQueue == u && orderedQueue == if o == [] then [] else o[1..]
    }

    /** Popping what Peek returns, as long as it returns anything, sends everything: each class
        whole and in the order it was pushed. */
    method Drain()
      requires Valid()
      modifies this`unorderedQueue, this`orderedQueue, this`selected, this`unorderedIsSelected, this`nBytes, this`nChunks, this`out
      ensures Valid() && unorderedQueue == [] && orderedQueue == [] && nBytes == 0 && nChunks == 0
      ensures Class(out, true) == pushedUnordered && Class(out, false) == pushedOrdered && old(out) <= out
      ensures !selected
    {
      hide Ready, Class, QueueOk, Seamless;
      while Peek().Some?
        invariant Valid() && pushedUnordered == old(pushedUnordered) && pushedOrdered == old(pushedOrdered) && old(out) <= out
        decreases nChunks
      {
        var err := Pop(Peek().value);
      }
      NothingOpen(selected, unorderedIsSelected, out);
    }

    method PopPolicy(c: Chunk) returns (err: Error)
      requires Valid()
      modifies this`unorderedQueue, this`orderedQueue, this`selected, this`unorderedIsSelected
      ensures err == NoError <==> Offered(old(unorderedQueue), old(orderedQueue), old(selected), old(unorderedIsSelected), c)
      ensures err == NoError ==> Popped(c, old(unorderedQueue), old(orderedQueue), unorderedQueue, orderedQueue, selected, unorderedIsSelected)
      ensures err != NoError ==> Lost(err, c, old(unorderedQueue), old(orderedQueue), old(selected), old(unorderedIsSelected))
    {
      hide Seamless, Class, TotalLen;
      if selected {
        err := PopSelected(c);
      } else if !c.first {
        err := UnexpectedState;
      } else {
        err := PopNewSelection(c);
      }
    }

    method PopSelected(c: Chunk) returns (err: Error)
      requires Valid() && selected
      modifies this`unorderedQueue, this`orderedQueue, this`selected
      ensures err == NoError <==> Offered(old(unorderedQueue), old(orderedQueue), true, unorderedIsSelected, c)
      ensures err == NoError ==> Popped(c, old(unorderedQueue), old(orderedQueue), unorderedQueue, orderedQueue, selected, unorderedIsSelected)
      ensures err != NoError ==> Lost(err, c, old(unorderedQueue), old(orderedQueue), true, unorderedIsSelected)
    {
      hide Seamless, Class, TotalLen;
      var popped: Option<Chunk>;
      if unorderedIsSelected {
        popped := PopUnordered();
        err := UnexpectedUnordered;
      } else {
        popped := PopOrdered();
        err := UnexpectedOrdered;
      }
      if popped != Some(c) { return; }
      if c.last { selected := false; }
      return NoError;
    }

    method PopNewSelection(c: Chunk) returns (err: Error)
      requires Valid() && !selected && c.first
      modifies this`unorderedQueue, this`orderedQueue, this`selected, this`unorderedIsSelected
      ensures err == NoError <==> Offered(old(unorderedQueue), old(orderedQueue), false, old(unorderedIsSelected), c)
      ensures err == NoError ==> Popped(c, old(unorderedQueue), old(orderedQueue), unorderedQueue, orderedQueue, selected, unorderedIsSelected)
      ensures err != NoError ==> Lost(err, c, old(unorderedQueue), old(orderedQueue), false, old(unorderedIsSelected))
    {
      hide Seamless, Class, TotalLen;
      var popped: Option<Chunk>;
      var isSelected := false;
      if c.unordered {
        popped := PopUnordered();
        err := UnexpectedUnordered;
        isSelected := true;
      } else {
        popped := PopOrdered();
        err := UnexpectedOrdered;
      }
      if popped != Some(c) { return; }
      if !c.last { selected, unorderedIsSelected := true, isSelected; }
      return NoError;
    }

    method PopUnordered() returns (r: Option<Chunk>)
      modifies this`unorderedQueue
      ensures old(unorderedQueue) == [] ==> r == None && unorderedQueue == []
      ensures old(unorderedQueue) != [] ==> r == Some(old(unorderedQueue)[0]) && unorderedQueue == old(unorderedQueue)[1..]
    {
      r := First(unorderedQueue);
      if unorderedQueue != [] { unorderedQueue := unorderedQueue[1..]; }
    }

    method PopOrdered() returns (r: Option<Chunk>)
      modifies this`orderedQueue
      ensures old(orderedQueue) == [] ==> r == None && orderedQueue == []
      ensures old(orderedQueue) != [] ==> r == Some(old(orderedQueue)[0]) && orderedQueue == old(orderedQueue)[1..]
    {
      r := First(orderedQueue);
      if orderedQueue != [] { orderedQueue := orderedQueue[1..]; }
    }
  }

  /** With both queues empty no message is open. */
  lemma {:induction false} NothingOpen(selected: bool, unorderedIsSelected: bool, out: seq<Chunk>)
    requires Ready([], [], selected, unorderedIsSelected, out)
    ensures !selected
  {
  }

  lemma {:induction false} PopCounts(c: Chunk, u: seq<Chunk>, o: seq<Chunk>, u': seq<Chunk>, o': seq<Chunk>, sel': bool, us': bool, out: seq<Chunk>)
    requires Popped(c, u, o, u', o', sel', us') && (if c.unordered then u[0] == c else o[0] == c)
    ensures |u'| + |o'| == |u| + |o| - 1 && TotalLen(u') + TotalLen(o') == TotalLen(u) + TotalLen(o) - c.len
    ensures Class(out + [c], true) + u' == Class(out, true) + u && Class(out + [c], false) + o' == Class(out, false) + o
  {
    hide Class, TotalLen;
    ClassNext(out, c, true);
    ClassNext(out, c, false);
    if c.unordered {
      TotalRest(u);
      assert u == [c] + u';
    } else {
      TotalRest(o);
      assert o == [c] + o';
    }
  }

  lemma {:induction false} TotalRest(q: seq<Chunk>)
    requires q != []
    ensures TotalLen(q) == q[0].len + TotalLen(q[1..])
  {
    assert q == [q[0]] + q[1..];
    TotalLenAppend([q[0]], q[1..]);
    assert [q[0]][..0] == [];
  }

  /** In what is sent, a message once begun goes on without a break until it ends: under
      consecutive TSNs its fragments are consecutive, as the receiver demands. */
  lemma {:induction false} MessageUnbroken(out: seq<Chunk>, i: nat, j: nat)
    requires Seamless(out) && i <= j < |out| && forall k :: i <= k < j ==> !out[k].last
    ensures forall k :: i <= k <= j ==> out[k].msg == out[i].msg && (k > i ==> !out[k].first)
    decreases j
  {
    if i < j {
      MessageUnbroken(out, i, j - 1);
      assert Joint(out, j - 1);
    }
  }
}
