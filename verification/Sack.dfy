/** The sender's side of a SACK: pop what the cumulative ack covers, mark what the gap
    blocks cover, credit each stream with exactly what was newly acknowledged, and
    advance the peer's ack point over abandoned messages (section 3.5 of RFC 3758). */
module Sack {
  import opened Options
  import opened Serial
  import opened Inflight
  import opened Forward

  /** A Gap Ack Block as it is on the wire. */
  datatype Gap = Gap(start: uint16, end: uint16)

  // -------------------------------------------------- per-stream byte counts

  type Bytes = map<uint16, nat>

  function Of(b: Bytes, s: uint16): nat { if s in b then b[s] else 0 }

  function Credit(b: Bytes, s: uint16, n: nat): Bytes { b[s := Of(b, s) + n] }

  /** The sum of all entries. */
  function SumTo(b: Bytes, k: nat): nat
    requires k <= TWO16
  {
    if k == 0 then 0 else SumTo(b, k - 1) + Of(b, k - 1)
  }

  function Sum(b: Bytes): nat { SumTo(b, TWO16) }

  lemma {:induction false} SumToCredit(b: Bytes, s: uint16, n: nat, k: nat)
    requires k <= TWO16
    ensures SumTo(Credit(b, s, n), k) == SumTo(b, k) + if s < k then n else 0
  {
    if k > 0 { SumToCredit(b, s, n, k - 1); }
  }

  lemma {:induction false} SumToEmpty(k: nat)
    requires k <= TWO16
    ensures SumTo(map[], k) == 0
  {
    if k > 0 { SumToEmpty(k - 1); }
  }

  /** Bytes credited and bytes still in flight balance, stream by stream and in all. */
  ghost predicate Balanced(b: Bytes, cs: seq<Chunk>, b': Bytes, cs': seq<Chunk>) {
    && (forall s: uint16 :: Of(b, s) + TotalOf(cs, s) == Of(b', s) + TotalOf(cs', s))
    && Sum(b) + Total(cs) == Sum(b') + Total(cs')
  }

  /** A chunk that leaves, or is acknowledged, moves its bytes from one side to the other. */
  lemma {:induction false} BalancedPop(b: Bytes, cs: seq<Chunk>)
    requires cs != []
    ensures Balanced(b, cs, Credit(b, cs[0].stream, cs[0].size), cs[1..])
    ensures cs[0].size == 0 ==> Balanced(b, cs, b, cs[1..])
  {
    SumToCredit(b, cs[0].stream, cs[0].size, TWO16);
    forall s: uint16
      ensures TotalOf(cs, s) == (if cs[0].stream == s then cs[0].size else 0) + TotalOf(cs[1..], s)
    {
      TotalFront(cs, s);
    }
    TotalFront(cs, 0);
  }

  lemma {:induction false} BalancedAck(b: Bytes, cs: seq<Chunk>, i: nat)
    requires i < |cs|
    ensures Balanced(b, cs, Credit(b, cs[i].stream, cs[i].size), cs[i := Ack(cs[i])])
  {
    SumToCredit(b, cs[i].stream, cs[i].size, TWO16);
    forall s: uint16
      ensures TotalOf(cs[i := Ack(cs[i])], s) == TotalOf(cs, s) - if cs[i].stream == s then cs[i].size else 0
    {
      TotalUpdate(cs, i, Ack(cs[i]), s);
    }
    TotalUpdate(cs, i, Ack(cs[i]), 0);
  }

  lemma {:induction false} BalancedTrans(b: Bytes, cs: seq<Chunk>, b1: Bytes, cs1: seq<Chunk>, b2: Bytes, cs2: seq<Chunk>)
    requires Balanced(b, cs, b1, cs1) && Balanced(b1, cs1, b2, cs2)
    ensures Balanced(b, cs, b2, cs2)
  {
  }

  lemma {:induction false} BalancedRefl(b: Bytes, cs: seq<Chunk>)
    ensures Balanced(b, cs, b, cs)
  {
  }

  /** Adding up the entries one by one, in any order. */
  method AddUp(b: Bytes) returns (total: nat)
    ensures total == Sum(b)
  {
    total := 0;
    var done: Bytes, todo := map[], b.Keys;
    SumToEmpty(TWO16);
    while todo != {}
      invariant todo <= b.Keys && done == b - todo && total == Sum(done)
    {
      var s :| s in todo;
      total := total + b[s];
      SumToCredit(done, s, b[s], TWO16);
      todo := todo - {s};
      done := done[s := b[s]];
    }
    assert done == b;
  }

  // ---------------------------------------------------------- what a SACK names

  predicate Names(g: Gap, i: nat) { g.start <= i <= g.end }

  /** The offsets above the cumulative TSN that gap blocks cover. */
  ghost function Offsets(gaps: seq<Gap>): set<nat> {
    set i: nat, k: nat | i < TWO16 && k < |gaps| && Names(gaps[k], i) :: i
  }

  /** Chunks with the chunk at each of these offsets acknowledged. */
  ghost function Marked(cs: seq<Chunk>, offs: set<nat>): seq<Chunk> {
    seq(|cs|, i requires 0 <= i < |cs| => if i + 1 in offs && !cs[i].acked then Ack(cs[i]) else cs[i])
  }

  /** cs' is cs with every chunk that a gap block names acknowledged, and no other changed. */
  ghost predicate Settled(cs: seq<Chunk>, gaps: seq<Gap>, cs': seq<Chunk>) {
    |cs'| == |cs| && forall i :: 0 <= i < |cs| ==>
      if exists k :: 0 <= k < |gaps| && gaps[k].start <= i + 1 <= gaps[k].end then Acknowledged(cs[i], cs'[i])
      else cs'[i] == cs[i]
  }

  /** Every TSN the block names is in flight, findable without crossing 2^32, and the
      16-bit loop counter can step past its end. */
  predicate Fits(n: nat, first: uint32, g: Gap) {
    g.start <= g.end ==> 1 <= g.start && g.end <= n && g.end < 0xFFFF && first + (g.end - 1) < TWO32
  }

  predicate AllFit(n: nat, first: uint32, gaps: seq<Gap>) {
    forall k :: 0 <= k < |gaps| ==> Fits(n, first, gaps[k])
  }

  /** A SACK that names only sent TSNs, by its cumulative TSN and by every gap block. */
  predicate NamesSent(inflight: nat, cumAck: uint32, cum: uint32, gaps: seq<Gap>) {
    var n := Dist(cumAck, cum);
    n <= inflight && AllFit(inflight - n, Add(cum, 1), gaps)
  }

  lemma {:induction false} MarkedOne(cs: seq<Chunk>, offs: set<nat>, i: nat)
    requires 1 <= i <= |cs|
    ensures var m := Marked(cs, offs);
            Marked(cs, offs + {i}) == if m[i - 1].acked then m else m[i - 1 := Ack(m[i - 1])]
  {
  }

  lemma {:induction false} OffsetsPrefix(gaps: seq<Gap>, k: nat)
    requires k < |gaps|
    ensures Offsets(gaps[..k + 1]) == Offsets(gaps[..k]) + Offsets([gaps[k]])
    ensures Offsets(gaps[..0]) == {}
  {
    var a, b, c := Offsets(gaps[..k + 1]), Offsets(gaps[..k]), Offsets([gaps[k]]);
    forall i | i in a ensures i in b + c {
      var j: nat :| j < k + 1 && Names(gaps[..k + 1][j], i);
      if j < k { assert gaps[..k][j] == gaps[j]; } else { assert [gaps[k]][0] == gaps[k]; }
    }
    forall i | i in b ensures i in a {
      var j: nat :| j < k && Names(gaps[..k][j], i);
      assert gaps[..k + 1][j] == gaps[..k][j];
    }
    forall i | i in c ensures i in a {
      assert gaps[..k + 1][k] == gaps[k];
    }
  }

  /** The offsets of one block below i. */
  ghost function Below(g: Gap, i: nat): set<nat> { set x | x in Offsets([g]) && x < i }

  lemma {:induction false} OffsetsOne(g: Gap, i: nat)
    ensures i in Offsets([g]) <==> Names(g, i)
  {
    if Names(g, i) { assert Names([g][0], i); }
  }

  lemma {:induction false} BelowSteps(g: Gap, i: nat)
    ensures g.start <= i <= g.end ==> Below(g, i + 1) == Below(g, i) + {i}
    ensures Below(g, g.start) == {}
    ensures Below(g, g.end + 1) == Offsets([g])
    ensures g.end < g.start ==> Offsets([g]) == {}
  {
    forall x ensures x in Offsets([g]) <==> Names(g, x) { OffsetsOne(g, x); }
  }

  /** Marking block after block is marking all their offsets. */
  lemma {:induction false} MarkedTwice(cs: seq<Chunk>, a: set<nat>, b: set<nat>)
    ensures Marked(Marked(cs, a), b) == Marked(cs, a + b)
  {
  }

  lemma {:induction false} MarkedKeeps(cs: seq<Chunk>, offs: set<nat>, first: uint32)
    requires Consecutive(cs, first) && AckedEmpty(cs)
    ensures Consecutive(Marked(cs, offs), first) && AckedEmpty(Marked(cs, offs))
    ensures Marked(cs, {}) == cs
  {
  }

  // ------------------------------------------------------------- the sender

  class Sender {
    const queue: PayloadQueue
    var cumAck: uint32
    var myNextTSN: uint32

    /** What each stream reports as buffered, and the part of it not yet in flight. */
    var buffered: map<uint16, nat>
    ghost var pending: Bytes

    /** Each stream's low-water mark. */
    var low: map<uint16, nat>

    /** Partial reliability: how far the peer may be told to skip, the messages given up,
        the messages sent to their end, and the message whose end is still to be sent. */
    var advanced: uint32
    var given: set<nat>
    var allInflight: set<nat>
    ghost var open: Option<nat>

    /** Fragments of different messages may be sent in turns. */
    const interleaving: bool

    constructor (initialTSN: uint32, interleaving: bool)
      ensures this.interleaving == interleaving && buffered == map[]
      ensures Valid() && Messages() && fresh(queue) && queue.chunks == [] && myNextTSN == initialTSN
    {
      this.interleaving := interleaving;
      queue := new PayloadQueue();
      cumAck := Add(initialTSN, TWO32 - 1);
      myNextTSN := initialTSN;
      buffered, pending, low := map[], map[], map[];
      advanced, given, allInflight, open := Add(initialTSN, TWO32 - 1), {}, {}, None;
    }

    /** In-flight TSNs are exactly those after the ack point and before the next TSN. */
    ghost predicate InFlight()
      reads this, queue
    {
      && queue.Valid()
      && Consecutive(queue.chunks, Add(cumAck, 1))
      && myNextTSN == Add(Add(cumAck, 1), |queue.chunks|)
    }

    /** A stream has buffered what is queued plus what is in flight unacknowledged. */
    ghost predicate Accounted()
      reads this, queue
    {
      forall s | s in buffered :: buffered[s] == Of(pending, s) + TotalOf(queue.chunks, s)
    }

    ghost predicate Valid()
      reads this, queue
    {
      InFlight() && Accounted()
    }

    ghost predicate Messages()
      reads this, queue
    {
      && (!interleaving ==> Joined(queue.chunks, allInflight, open))
      && Skipped(queue.chunks, cumAck, advanced, given * allInflight, !interleaving)
    }

    /** Pops everything up to and including cum, or empties the queue and fails. */
    method PopAcked(cum: uint32) returns (bytes: Bytes, ok: bool)
      requires InFlight() && Lte32(cumAck, cum)
      modifies queue
      ensures queue.Valid()
      ensures ok <==> Dist(cumAck, cum) <= |old(queue.chunks)|
      ensures ok ==> queue.chunks == old(queue.chunks)[Dist(cumAck, cum)..]
      ensures Balanced(map[], old(queue.chunks), bytes, queue.chunks)
      ensures !ok ==> queue.chunks == []
    {
      hide Balanced, Credit, Of, Sum;
      bytes, ok := map[], true;
      BalancedRefl(bytes, queue.chunks);
      ghost var all, k := queue.chunks, 0;
      var n := Dist(cumAck, cum);
      var idx := Add(cumAck, 1);
      while Lte32(idx, cum)
        invariant queue.Valid() && k <= n && k <= |all| && ok
        invariant idx == Add(cumAck, k + 1) && queue.chunks == all[k..]
        invariant Balanced(map[], all, bytes, queue.chunks)
        decreases n - k
      {
        ghost var before, was := queue.chunks, bytes;
        Compare(idx, cum);
        assert k < n;
        var c := queue.Pop(idx);
        if c.None? { return bytes, false; }
        BalancedPop(bytes, before);
        if !c.value.acked { bytes := Credit(bytes, c.value.stream, c.value.size); }
        BalancedTrans(map[], all, was, before, bytes, queue.chunks);
        idx := Add(idx, 1);
        k := k + 1;
      }
      Compare(idx, cum);
    }

    /** Marks the chunks one gap block names. */
    method MarkGap(cum: uint32, g: Gap, bytes0: Bytes) returns (bytes: Bytes, ok: bool)
      requires queue.Valid() && Consecutive(queue.chunks, Add(cum, 1))
      modifies queue
      ensures queue.Valid()
      ensures Consecutive(queue.chunks, Add(cum, 1))
      ensures |queue.chunks| == |old(queue.chunks)|
      ensures ok <==> Fits(|queue.chunks|, Add(cum, 1), g)
      ensures ok ==> queue.chunks == Marked(old(queue.chunks), Offsets([g])) && Settled(old(queue.chunks), [g], queue.chunks)
      ensures Balanced(bytes0, old(queue.chunks), bytes, queue.chunks)
    {
      hide Balanced, Credit, Of, Sum, Offsets, Below, Marked, Settled, Acknowledged, Ack, Total, AckedEmpty;
      bytes, ok := bytes0, true;
      ghost var all := queue.chunks;
      BalancedRefl(bytes, all);
      MarkedKeeps(all, {}, Add(cum, 1));
      BelowSteps(g, g.start);
      var i: uint16 := g.start;
      ghost var wrapped := false;
      while i <= g.end
        invariant queue.Valid() && ok
        invariant Consecutive(queue.chunks, Add(cum, 1)) && |queue.chunks| == |all|
        invariant wrapped ==> i == 0 && g.start <= g.end == 0xFFFF
        invariant !wrapped ==> g.start <= i && (i <= g.end + 1 || i == g.start)
        invariant !wrapped && g.start < i ==> 1 <= g.start && i - 1 <= |all| && Add(cum, 1) + (i - 2) < TWO32
        invariant !wrapped ==> queue.chunks == Marked(all, Below(g, i))
        invariant Balanced(bytes0, all, bytes, queue.chunks)
        decreases if wrapped then -1 else g.end - i
      {
        ghost var before, was := queue.chunks, bytes;
        GetIff(queue.chunks, cum, i);
        var r := GetIndex(queue.chunks, Add(cum, i));
        if r.None? { return bytes, false; }
        MarkedOne(all, Below(g, i), i);
        if !queue.chunks[r.value].acked {
          var stream := queue.chunks[r.value].stream;
          BalancedAck(bytes, before, r.value);
          var n := queue.MarkAsAcked(Add(cum, i));
          AckedAt(before, queue.chunks, r.value);
          bytes := Credit(bytes, stream, n);
          BalancedTrans(bytes0, all, was, before, bytes, queue.chunks);
        }
        BelowSteps(g, i);
        // 16 bits: past 0xFFFF the counter comes round to 0, and get(cum) then fails
        wrapped := i == 0xFFFF;
        i := if i == 0xFFFF then 0 else i + 1;
      }
      MarkedEach(all, [g]);
    }

    /** Marks the chunks of all gap blocks, or fails at the first block that does not fit. */
    method MarkGaps(cum: uint32, gaps: seq<Gap>, bytes0: Bytes) returns (bytes: Bytes, ok: bool)
      requires queue.Valid() && Consecutive(queue.chunks, Add(cum, 1))
      modifies queue
      ensures queue.Valid()
      ensures Consecutive(queue.chunks, Add(cum, 1))
      ensures |queue.chunks| == |old(queue.chunks)|
      ensures ok <==> AllFit(|queue.chunks|, Add(cum, 1), gaps)
      ensures ok ==> queue.chunks == Marked(old(queue.chunks), Offsets(gaps)) && Settled(old(queue.chunks), gaps, queue.chunks)
      ensures Balanced(bytes0, old(queue.chunks), bytes, queue.chunks)
    {
      hide Balanced, Credit, Of, Sum, Offsets, Marked, Fits, Consecutive, Total, Settled;
      bytes, ok := bytes0, true;
      ghost var all := queue.chunks;
      BalancedRefl(bytes, all);
      MarkedKeeps(all, {}, Add(cum, 1));
      if gaps == [] { OffsetsNone(gaps); } else { OffsetsPrefix(gaps, 0); }
      var k := 0;
      while k < |gaps|
        invariant 0 <= k <= |gaps| && queue.Valid() && ok
        invariant Consecutive(queue.chunks, Add(cum, 1)) && |queue.chunks| == |all|
        invariant forall j :: 0 <= j < k ==> Fits(|all|, Add(cum, 1), gaps[j])
        invariant queue.chunks == Marked(all, Offsets(gaps[..k]))
        invariant Balanced(bytes0, all, bytes, queue.chunks)
      {
        ghost var before, was := queue.chunks, bytes;
        bytes, ok := MarkGap(cum, gaps[k], bytes);
        BalancedTrans(bytes0, all, was, before, bytes, queue.chunks);
        if !ok { return bytes, false; }
        OffsetsPrefix(gaps, k);
        MarkedTwice(all, Offsets(gaps[..k]), Offsets([gaps[k]]));
        k := k + 1;
      }
      assert gaps[..k] == gaps;
      MarkedEach(all, gaps);
    }

    /** Stream.onBufferReleased, and the callback it makes when the low-water mark is
        passed on the way down. */
    method OnBufferReleased(s: uint16, n: nat) returns (clamped: bool, fired: bool)
      requires s in buffered
      modifies this`buffered
      ensures clamped <==> old(buffered)[s] < n
      ensures buffered == old(buffered)[s := if clamped then 0 else old(buffered)[s] - n]
      ensures fired <==> old(buffered)[s] > Of(low, s) >= buffered[s]
    {
      clamped, fired := false, false;
      if n <= 0 { assert buffered == buffered[s := buffered[s]]; return; }
      var from := buffered[s];
      clamped := buffered[s] < n;
      buffered := buffered[s := if clamped then 0 else buffered[s] - n];
      fired := from > Of(low, s) && buffered[s] <= Of(low, s);
    }

    /** Releases what was acknowledged, stream by stream in any order. */
    method Release(bytes: Bytes) returns (clamped: bool, fired: set<uint16>)
      requires forall s | s in buffered :: Of(bytes, s) <= buffered[s]
      modifies this`buffered
      ensures !clamped && buffered.Keys == old(buffered).Keys
      ensures forall s | s in buffered :: buffered[s] == old(buffered)[s] - Of(bytes, s)
      ensures Crossed(old(buffered), fired)
    {
      clamped, fired := false, {};
      var todo := bytes.Keys;
      while todo != {}
        invariant todo <= bytes.Keys && !clamped && buffered.Keys == old(buffered).Keys
        invariant forall s | s in buffered ::
                    buffered[s] == old(buffered)[s] - if s in todo then 0 else Of(bytes, s)
        invariant forall s | s in buffered ::
                    s in fired <==> old(buffered)[s] > Of(low, s) >= buffered[s]
      {
        var s :| s in todo;
        if s in buffered {
          var c, f := OnBufferReleased(s, bytes[s]);
          clamped := clamped || c;
          if f { fired := fired + {s}; }
        }
        todo := todo - {s};
      }
    }

    /** The streams called back are those whose low-water mark was crossed downwards. */
    ghost predicate Crossed(was: map<uint16, nat>, fired: set<uint16>)
      reads this`buffered, this`low
    {
      was.Keys == buffered.Keys && forall s | s in buffered :: s in fired <==> was[s] > Of(low, s) >= buffered[s]
    }

    ghost predicate Acceptable(cum: uint32, gaps: seq<Gap>)
      reads this, queue
    {
      NamesSent(|queue.chunks|, cumAck, cum, gaps)
    }

    /** processSelectiveAck and what handleSack does with its result: an acceptable SACK
        leaves exactly the TSNs after it, marks exactly the offsets its gap blocks name,
        gives each stream back exactly its newly acknowledged bytes, and `acked` is the
        drop in nBytes. Any other is an error, and since popping comes before failing,
        the in-flight interval then survives only if nothing was popped. */
    method ApplySack(cum: uint32, gaps: seq<Gap>)
      returns (err: bool, acked: nat, clamped: bool, fired: set<uint16>)
      requires Valid() && Lte32(cumAck, cum)
      modifies this`cumAck, this`buffered, queue
      ensures err <==> !old(Acceptable(cum, gaps))
      ensures !err ==> Valid() && !clamped && acked == old(queue.nBytes) - queue.nBytes
      ensures !err ==> cumAck == cum && queue.chunks == Marked(old(queue.chunks)[Dist(old(cumAck), cum)..], Offsets(gaps))
      ensures !err ==> Settled(old(queue.chunks)[Dist(old(cumAck), cum)..], gaps, queue.chunks)
      ensures !err ==> buffered.Keys == old(buffered).Keys && Crossed(old(buffered), fired)
      ensures err ==> cumAck == old(cumAck) && buffered == old(buffered) && acked == 0 && !clamped && fired == {}
      ensures err ==> (InFlight() <==> old(cumAck) == cum || old(queue.chunks) == [])
    {
      hide Balanced, Offsets, Marked, Settled, Fits, AllFit, Consecutive, Total, TotalOf, Sum, Add, Dist, Lte32;
      err, acked, clamped, fired := false, 0, false, {};
      Compare(cumAck, cum);
      ghost var all := queue.chunks;
      var bytes, ok := PopAcked(cum);
      if !ok {
        PoppedBreaks(all, cumAck, cum, []);
        return true, 0, false, {};
      }
      ghost var rest, mid := queue.chunks, bytes;
      PoppedConsecutive(all, cumAck, cum);
      bytes, ok := MarkGaps(cum, gaps, bytes);
      if !ok {
        PoppedBreaks(all, cumAck, cum, queue.chunks);
        return true, 0, false, {};
      }
      BalancedTrans(map[], all, mid, rest, bytes, queue.chunks);
      acked := AddUp(bytes);
      BalancedSum(all, bytes, queue.chunks);
      cumAck := cum;
      clamped, fired := Release(bytes);
    }

    /** A stale SACK changes nothing; an acceptable one keeps every invariant and moves
        the ack point to its own; the advanced point follows by steps C1 to C3. */
    method HandleSack(cum: uint32, gaps: seq<Gap>)
      returns (err: bool, acked: nat, clamped: bool, fired: set<uint16>, willSendForwardTSN: bool)
      requires Valid() && Messages()
      modifies this`cumAck, this`buffered, this`advanced, queue
      ensures Gt32(old(cumAck), cum) ==>
                && !err && cumAck == old(cumAck) && queue.chunks == old(queue.chunks) && buffered == old(buffered)
                && advanced == old(advanced) && !willSendForwardTSN
      ensures !Gt32(old(cumAck), cum) ==> (err <==> !old(Acceptable(cum, gaps)))
      ensures err ==>
                && cumAck == old(cumAck) && buffered == old(buffered) && advanced == old(advanced)
                && acked == 0 && fired == {} && !willSendForwardTSN
      ensures !err ==> Valid() && Messages() && !clamped && acked == old(queue.nBytes) - queue.nBytes
      ensures !err ==> Crossed(old(buffered), fired)
      ensures !err && !Gt32(old(cumAck), cum) ==>
                cumAck == cum && queue.chunks == Marked(old(queue.chunks)[Dist(old(cumAck), cum)..], Offsets(gaps))
      ensures !err && !Gt32(old(cumAck), cum) ==> Settled(old(queue.chunks)[Dist(old(cumAck), cum)..], gaps, queue.chunks)
      ensures !err && !Gt32(old(cumAck), cum) ==>
                && Advanced(if Lt32(old(advanced), cum) then cum else old(advanced))
                && (willSendForwardTSN <==> advanced != cumAck)
    {
      hide Joined, Skipped, Marked, Settled, Offsets, Total, TotalOf, AllFit, Consecutive, Add, Dist, Lt32, Gt32, Lte32, Reach;
      err, acked, clamped, fired, willSendForwardTSN := false, 0, false, {}, false;
      Compare(cumAck, cum);
      if Gt32(cumAck, cum) { return; }
      ghost var all, was := queue.chunks, cumAck;
      Short(all, Add(was, 1));
      err, acked, clamped, fired := ApplySack(cum, gaps);
      if err { return; }
      MarkedSame(all[Dist(was, cum)..], Offsets(gaps));
      if !interleaving { JoinedKept(all, queue.chunks, Dist(was, cum), allInflight, open); }
      SkippedKept(all, queue.chunks, was, cum, advanced, given * allInflight, !interleaving);
      if Lt32(advanced, cumAck) { advanced := cumAck; }
      willSendForwardTSN := AdvancePeer();
    }

    /** A stream of this id is found, or registered with nothing buffered. The bytes then
        balance if and only if none of an earlier stream of the same id are still on their
        way. */
    method GetOrCreateStream(s: uint16)
      requires Valid() && Messages()
      modifies this`buffered, this`low
      ensures InFlight() && Messages()
      ensures Valid() <==> s in old(buffered) || Of(pending, s) + TotalOf(queue.chunks, s) == 0
      ensures buffered == if s in old(buffered) then old(buffered) else old(buffered)[s := 0]
    {
      if s !in buffered {
        buffered, low := buffered[s := 0], low - {s};
      }
    }

    /** The peer has reset the stream: it is forgotten, and what it sent stays in flight. */
    method DropStream(s: uint16)
      requires Valid() && Messages()
      modifies this`buffered
      ensures Valid() && Messages() && buffered == old(buffered) - {s}
    {
      buffered := buffered - {s};
    }

    /** An application write of n bytes: queued, not yet in flight. */
    method Write(s: uint16, n: nat)
      requires Valid() && Messages() && s in buffered
      modifies this`buffered, this`pending
      ensures Valid() && Messages()
      ensures buffered == old(buffered)[s := old(buffered)[s] + n]
    {
      buffered := buffered[s := buffered[s] + n];
      pending := Credit(pending, s, n);
    }

    /** A pending chunk goes in flight under the next TSN. Without interleaving the pending
        queue delivers the chunks of one message one after another. */
    method Send(c: Chunk)
      requires Valid() && Messages() && |queue.chunks| + 1 < HALF32
      requires c.tsn == myNextTSN && !c.acked && c.size <= Of(pending, c.stream) && c.msg !in allInflight
      requires !interleaving && open.Some? ==> c.msg == open.value
      modifies this`myNextTSN, this`pending, this`allInflight, this`open, queue
      ensures Valid() && Messages() && queue.chunks == old(queue.chunks) + [c]
      ensures myNextTSN == Add(old(myNextTSN), 1)
      ensures allInflight == old(allInflight) + if c.ending then {c.msg} else {}
    {
      hide Joined, Skipped, Total, Consecutive, TotalOf;
      SentKeeps(queue.chunks, c, cumAck, advanced, given, allInflight, !interleaving);
      if !interleaving { SentJoins(queue.chunks, c, allInflight, open); }
      SentAccounts(queue.chunks, c, Add(cumAck, 1));
      if c.ending { allInflight := allInflight + {c.msg}; }
      assert allInflight == old(allInflight) + if c.ending then {c.msg} else {};
      open := if c.ending then None else Some(c.msg);
      myNextTSN := Add(myNextTSN, 1);
      queue.PushNoCheck(c);
      pending := pending[c.stream := Of(pending, c.stream) - c.size];
    }

    /** checkPartialReliabilityStatus has decided to give a message up. */
    method Abandon(msg: nat)
      requires Valid() && Messages()
      modifies this`given
      ensures Valid() && Messages() && given == old(given) + {msg}
    {
      given := given + {msg};
    }

    /** The advanced point is as far as step C2 goes from a given point: everything between
        the two is abandoned, and the next chunk in flight is not, or lies across 2^32. */
    ghost predicate Advanced(from: uint32)
      reads this, queue
    {
      var m, r := Dist(cumAck, from), Dist(cumAck, advanced);
      && m <= r <= |queue.chunks| < HALF32
      && (forall i :: m <= i < r ==> queue.chunks[i].msg in given && queue.chunks[i].msg in allInflight)
      && (r < |queue.chunks| && Add(cumAck, 1) + r < TWO32 ==> queue.chunks[r].msg !in given || queue.chunks[r].msg !in allInflight)
    }

    /** Step C2 and C3: pass over abandoned chunks as far as they go. */
    method AdvancePeer() returns (willSendForwardTSN: bool)
      requires Valid() && Messages()
      modifies this`advanced
      ensures Valid() && Messages()
      ensures Advanced(old(advanced))
      ensures willSendForwardTSN <==> advanced != cumAck
    {
      hide Joined, Skipped, Total, TotalOf, Reach, GetIndex, Consecutive, Add, Dist, Lt32;
      ghost var m := Dist(cumAck, advanced);
      ghost var cs := queue.chunks;
      Short(cs, Add(cumAck, 1));
      SkippedBound(cs, cumAck, advanced, given * allInflight, !interleaving);
      ReachSkipped(cs, cumAck, advanced, given, allInflight, open, !interleaving);
      ghost var r := Reach(cs, Add(cumAck, 1), given * allInflight, m);
      AddDist(cumAck, advanced);
      var i := Add(advanced, 1);
      while true
        invariant m <= |cs| && advanced == Add(cumAck, m) && i == Add(cumAck, m + 1)
        invariant r == Reach(cs, Add(cumAck, 1), given * allInflight, m)
        decreases |cs| - m
      {
        AdvanceStep(cs, cumAck, given * allInflight, m);
        var k := GetIndex(queue.chunks, i);
        if k.None? { break; }
        if queue.chunks[k.value].msg !in given * allInflight { break; }
        advanced := i;
        i := Add(i, 1);
        m := m + 1;
      }
      DistAdd(cumAck, m);
      ReachFar(cs, Add(cumAck, 1), given * allInflight, Dist(cumAck, old(advanced)));
      Compare(advanced, cumAck);
      willSendForwardTSN := Gt32(advanced, cumAck);
    }

    /** The T3 timer expires: pass over abandoned chunks, and send the rest again. */
    method OnT3() returns (willSendForwardTSN: bool)
      requires Valid() && Messages()
      modifies this`advanced, queue`chunks
      ensures Valid() && Messages()
      ensures Advanced(old(advanced)) && (willSendForwardTSN <==> advanced != cumAck)
      ensures forall i :: 0 <= i < |queue.chunks| ==>
                var c := old(queue.chunks)[i];
                queue.chunks[i] == if c.acked || c.msg in given * allInflight then c else c.(retransmit := true)
    {
      hide Joined, Skipped, Total, TotalOf, Consecutive, Reach, Add, Dist;
      willSendForwardTSN := AdvancePeer();
      ghost var all := queue.chunks;
      queue.MarkAllToRetransmit(given * allInflight);
      RemarkedKeeps(all, queue.chunks, cumAck, advanced, given, allInflight, open, interleaving);
      forall s: uint16 ensures TotalOf(queue.chunks, s) == TotalOf(all, s) { SameTotals(all, queue.chunks, s); }
    }

    /** createForwardTSN: the advanced point, and each stream it passes over once, with the
        serial-greatest of its SSNs where these lie in half the serial space. */
    method CreateForwardTSN(ghost base: map<uint16, uint16>) returns (newCum: uint32, streams: map<uint16, uint16>)
      requires Valid() && Messages()
      ensures newCum == advanced && Dist(cumAck, advanced) <= |queue.chunks|
      ensures Lists(streams, queue.chunks[..Dist(cumAck, advanced)])
      ensures HalfSpace(queue.chunks[..Dist(cumAck, advanced)], base) ==>
                Reports(streams, queue.chunks[..Dist(cumAck, advanced)])
    {
      hide Joined, Skipped, Reports, Lists, Total, TotalOf, HalfSpace, Lt16, Lt32;
      newCum, streams := advanced, map[];
      ghost var n, m := 0, Dist(cumAck, advanced);
      ghost var cs := queue.chunks;
      SkippedBound(cs, cumAck, advanced, given * allInflight, !interleaving);
      ReportsNone();
      var i := Add(cumAck, 1);
      assert cs[..0] == [];
      while Lte32(i, advanced)
        invariant n <= m && i == Add(cumAck, n + 1) && Lists(streams, cs[..n])
        invariant HalfSpace(cs[..m], base) ==> Reports(streams, cs[..n])
        decreases m - n
      {
        Compare(i, advanced);
        assert n < m;
        GetIff(cs, cumAck, n + 1);
        var k := GetIndex(queue.chunks, i);
        if k.None? { break; }
        var c := queue.chunks[k.value];
        ReportsStep(streams, cs, n, m, base);
        if c.stream !in streams {
          streams := streams[c.stream := c.ssn];
        } else if Lt16(streams[c.stream], c.ssn) {
          streams := streams[c.stream := c.ssn];
        }
        i := Add(i, 1);
        n := n + 1;
      }
      Compare(i, advanced);
    }
  }

  lemma {:induction false} ReportsStep(streams: map<uint16, uint16>, cs: seq<Chunk>, n: nat, m: nat, base: map<uint16, uint16>)
    requires n < m <= |cs| && Lists(streams, cs[..n])
    requires HalfSpace(cs[..m], base) ==> Reports(streams, cs[..n])
    ensures var c := cs[n];
            var out := if c.stream in streams && !Lt16(streams[c.stream], c.ssn) then streams else streams[c.stream := c.ssn];
            Lists(out, cs[..n + 1]) && (HalfSpace(cs[..m], base) ==> Reports(out, cs[..n + 1]))
  {
    hide Lists, Reports, HalfSpace, Lt16;
    assert cs[..n] + [cs[n]] == cs[..n + 1];
    ListsNext(streams, cs[..n], cs[n]);
    if HalfSpace(cs[..m], base) {
      HalfSpacePrefix(cs[..m], base, n + 1);
      assert cs[..m][..n + 1] == cs[..n + 1];
      ReportsNext(streams, cs[..n], cs[n], base);
    }
  }

  /** Marking, chunk by chunk: what a gap block names is acknowledged, and nothing else
      changes. */
  lemma {:induction false} MarkedEach(cs: seq<Chunk>, gaps: seq<Gap>)
    requires AckedEmpty(cs)
    ensures Settled(cs, gaps, Marked(cs, Offsets(gaps)))
  {
    hide Offsets;
    forall i: nat ensures i in Offsets(gaps) <==> exists k :: 0 <= k < |gaps| && gaps[k].start <= i <= gaps[k].end {
      OffsetsNamed(gaps, i);
    }
  }

  lemma {:induction false} OffsetsNamed(gaps: seq<Gap>, i: nat)
    ensures i in Offsets(gaps) <==> exists k :: 0 <= k < |gaps| && gaps[k].start <= i <= gaps[k].end
  {
    if k :| 0 <= k < |gaps| && gaps[k].start <= i <= gaps[k].end { assert Names(gaps[k], i); }
  }

  lemma {:induction false} AckedAt(cs: seq<Chunk>, cs': seq<Chunk>, i: nat)
    requires i < |cs| == |cs'| && Acknowledged(cs[i], cs'[i]) && forall j :: 0 <= j < |cs| && j != i ==> cs'[j] == cs[j]
    ensures cs' == cs[i := Ack(cs[i])]
  {
  }

  lemma {:induction false} MarkedSame(cs: seq<Chunk>, offs: set<nat>)
    ensures SameMessages(cs, Marked(cs, offs))
  {
  }

  lemma {:induction false} SameTotals(cs: seq<Chunk>, cs': seq<Chunk>, s: uint16)
    requires |cs| == |cs'|
    requires forall i :: 0 <= i < |cs| ==> cs'[i].stream == cs[i].stream && cs'[i].size == cs[i].size
    ensures TotalOf(cs, s) == TotalOf(cs', s)
  {
    if cs != [] { SameTotals(cs[..|cs| - 1], cs'[..|cs| - 1], s); }
  }

  /** Marking for retransmission changes nothing that the invariants speak of. */
  lemma {:induction false} RemarkedKeeps(all: seq<Chunk>, cs: seq<Chunk>, cumAck: uint32, advanced: uint32,
                                         given: set<nat>, allInflight: set<nat>, open: Option<nat>, interleaving: bool)
    requires |cs| == |all| && Consecutive(all, Add(cumAck, 1))
    requires forall i :: 0 <= i < |all| ==> cs[i] == all[i].(retransmit := cs[i].retransmit)
    requires !interleaving ==> Joined(all, allInflight, open)
    requires Skipped(all, cumAck, advanced, given * allInflight, !interleaving)
    ensures Consecutive(cs, Add(cumAck, 1)) && SameMessages(all, cs)
    ensures !interleaving ==> Joined(cs, allInflight, open)
    ensures Skipped(cs, cumAck, advanced, given * allInflight, !interleaving)
  {
    assert all[0..] == all;
    SkippedBound(all, cumAck, advanced, given * allInflight, !interleaving);
    hide Joined, Skipped;
    if !interleaving { JoinedKept(all, cs, 0, allInflight, open); }
    SkippedKept(all, cs, cumAck, cumAck, advanced, given * allInflight, !interleaving);
  }

  /** The error paths: what is left in flight no longer starts at the ack point. */
  lemma {:induction false} PoppedBreaks(cs: seq<Chunk>, from: uint32, to: uint32, left: seq<Chunk>)
    requires Consecutive(cs, Add(from, 1)) && Dist(from, to) < HALF32
    requires (left == [] && Dist(from, to) > |cs|) || (Consecutive(left, Add(to, 1)) && |left| == |cs| - Dist(from, to))
    ensures (Consecutive(left, Add(from, 1)) && Add(Add(from, 1), |cs|) == Add(Add(from, 1), |left|)) <==>
              (from == to || cs == [])
  {
  }

  lemma {:induction false} SkippedBound(cs: seq<Chunk>, cumAck: uint32, advanced: uint32, abandoned: set<nat>, whole: bool)
    requires Skipped(cs, cumAck, advanced, abandoned, whole)
    ensures Dist(cumAck, advanced) <= |cs|
    ensures Dist(cumAck, advanced) > 0 ==> Add(cumAck, 1) + (Dist(cumAck, advanced) - 1) < TWO32
  {
  }

  lemma {:induction false} SentAccounts(cs: seq<Chunk>, c: Chunk, first: uint32)
    requires Consecutive(cs, first) && |cs| + 1 < HALF32 && c.tsn == Add(first, |cs|)
    ensures Consecutive(cs + [c], first) && Add(Add(first, |cs|), 1) == Add(first, |cs + [c]|)
    ensures forall s: uint16 :: TotalOf(cs + [c], s) == TotalOf(cs, s) + if c.stream == s then c.size else 0
  {
    assert (cs + [c])[..|cs|] == cs;
  }

  /** One step of the walk: what get finds past the m chunks already passed. */
  lemma {:induction false} AdvanceStep(cs: seq<Chunk>, cumAck: uint32, abandoned: set<nat>, m: nat)
    requires Consecutive(cs, Add(cumAck, 1)) && m <= |cs|
    ensures Add(Add(cumAck, m + 1), 1) == Add(cumAck, m + 2)
    ensures var k := GetIndex(cs, Add(cumAck, m + 1));
            && (k.Some? ==> k.value == m < |cs|)
            && Reach(cs, Add(cumAck, 1), abandoned, m) ==
               if k.Some? && cs[m].msg in abandoned then Reach(cs, Add(cumAck, 1), abandoned, m + 1) else m
  {
    GetIff(cs, cumAck, m + 1);
  }

  lemma {:induction false} Short(cs: seq<Chunk>, first: uint32)
    requires Consecutive(cs, first)
    ensures |cs| < HALF32
  {
  }

  lemma {:induction false} AddDist(a: uint32, b: uint32)
    requires Dist(a, b) < HALF32
    ensures Add(a, Dist(a, b)) == b && Add(b, 1) == Add(a, Dist(a, b) + 1)
  {
  }

  lemma {:induction false} DistAdd(a: uint32, m: nat)
    requires m < HALF32
    ensures Dist(a, Add(a, m)) == m && (Add(a, m) == a <==> m == 0) && (Gt32(Add(a, m), a) <==> m > 0)
  {
  }

  lemma {:induction false} PoppedConsecutive(cs: seq<Chunk>, from: uint32, to: uint32)
    requires Consecutive(cs, Add(from, 1)) && Dist(from, to) <= |cs|
    ensures var n := Dist(from, to);
            && Consecutive(cs[n..], Add(to, 1))
            && Add(Add(from, 1), |cs|) == Add(Add(to, 1), |cs| - n)
  {
  }

  /** From no credit at all: each stream's credit is its own drop. */
  lemma {:induction false} BalancedSum(cs: seq<Chunk>, b: Bytes, cs': seq<Chunk>)
    requires Balanced(map[], cs, b, cs')
    ensures Sum(b) == Total(cs) - Total(cs')
    ensures forall s: uint16 :: Of(b, s) == TotalOf(cs, s) - TotalOf(cs', s)
  {
    SumToEmpty(TWO16);
  }

  lemma {:induction false} OffsetsNone(gaps: seq<Gap>)
    requires gaps == []
    ensures Offsets(gaps[..0]) == {}
  {
  }
}
